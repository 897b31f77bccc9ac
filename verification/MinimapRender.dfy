/** Rendering the stored minimap at another size: box averages, then error diffusion. */
module MinimapRender {
  import opened Words
  import opened ErrorDiffusion

  // ---- Resampling boxes along one axis

  /** How much of the stored image is meaningful. */
  function SourceSize(dest: nat, stored: nat): nat {
    if dest * 2 > stored then stored else dest * 2
  }

  function BoxStart(i: nat, source: nat, dest: nat): nat
    requires dest > 0
  {
    i * source / dest
  }

  function BoxEnd(i: nat, source: nat, dest: nat): nat
    requires dest > 0
  {
    var start, end := BoxStart(i, source, dest), (i + 1) * source / dest;
    var stretched := if end <= start then start + 1 else end;
    if stretched > source then source else stretched
  }

  lemma DivMonotone(a: nat, b: nat, d: nat)
    requires a <= b && d > 0
    ensures a / d <= b / d
  {
    var qa, qb := a / d, b / d;
    assert a == qa * d + a % d && b == qb * d + b % d;
    assert qa > qb ==> qa * d >= (qb + 1) * d;
  }

  lemma DivAdd(a: nat, d: nat)
    requires d > 0
    ensures (a + d) / d == a / d + 1
  {
    var q, r := a / d, a % d;
    assert a + d == (q + 1) * d + r;
    DivUnique(a + d, d, q + 1, r);
  }

  lemma {:induction false} Stride(x: nat, y: nat, d: nat)
    requires x < y
    ensures x * d + d <= y * d
  {
    assert y * d == (y - 1) * d + d;
    if x < y - 1 {
      Stride(x, y - 1, d);
    }
  }

  lemma DivUnique(a: nat, d: nat, q: nat, r: nat)
    requires d > 0 && a == q * d + r && r < d
    ensures a / d == q
  {
    var q', r' := a / d, a % d;
    assert a == q' * d + r';
    if q < q' {
      Stride(q, q', d);
    } else if q' < q {
      Stride(q', q, d);
    }
  }

  /** Every box is nonempty and inside the source. */
  lemma BoxInBounds(i: nat, source: nat, dest: nat)
    requires i < dest && source > 0
    ensures BoxStart(i, source, dest) < BoxEnd(i, source, dest) <= source
  {
    var most := (dest - 1) * source;
    assert i * source <= most;
    assert most < dest * source;
    BelowQuotient(i * source, dest, source);
  }

  lemma BelowQuotient(a: nat, d: nat, m: nat)
    requires d > 0 && a < d * m
    ensures a / d < m
  {
    var q := a / d;
    assert a == q * d + a % d;
    assert q >= m ==> q * d >= m * d;
  }

  /** When the source is at least as large as the destination the boxes partition it: each begins where the
      one before ends, from the first source cell to the last. */
  lemma BoxesPartition(i: nat, source: nat, dest: nat)
    requires i < dest <= source
    ensures BoxStart(0, source, dest) == 0
    ensures BoxEnd(i, source, dest) == BoxStart(i + 1, source, dest)
    ensures BoxEnd(dest - 1, source, dest) == source
  {
    DivUnique(0 * source, dest, 0, 0);
    NotStretched(i, source, dest);
    NotStretched(dest - 1, source, dest);
    DivUnique(dest * source, dest, source, 0);
  }

  lemma NotStretched(i: nat, source: nat, dest: nat)
    requires i < dest <= source
    ensures BoxEnd(i, source, dest) == (i + 1) * source / dest
  {
    var a := i * source;
    assert (i + 1) * source == a + source;
    DivAdd(a, dest);
    DivMonotone(a + dest, a + source, dest);
    assert (i + 1) * source <= dest * source;
    DivMonotone((i + 1) * source, dest * source, dest);
    DivUnique(dest * source, dest, source, 0);
  }

  /** A box begins in the source cell that holds its exact start. */
  lemma BoxStartIsExact(i: nat, source: nat, dest: nat)
    requires dest > 0
    ensures BoxStart(i, source, dest) * dest <= i * source < (BoxStart(i, source, dest) + 1) * dest
  {
    var a := i * source;
    assert a == a / dest * dest + a % dest;
  }

  /** When the source is smaller, each box is the one source cell that holds its exact start. */
  lemma StretchedBoxIsCell(i: nat, source: nat, dest: nat)
    requires i < dest && 0 < source <= dest
    ensures BoxEnd(i, source, dest) == BoxStart(i, source, dest) + 1
  {
    var a := i * source;
    assert (i + 1) * source == a + source;
    DivAdd(a, dest);
    DivMonotone(a + source, a + dest, dest);
    BoxInBounds(i, source, dest);
  }

  /** The meaningful part of the stored image is twice the size asked for, as far as there is one. */
  lemma SourceSizeIs(dest: nat, stored: nat)
    ensures SourceSize(dest, stored) == Min(stored, dest + dest)
  {
  }

  // ---- The palette subset

  function Offset(y: nat, x: nat, pitch: nat): nat {
    y * pitch + x
  }

  /** The image holds every meaningful pixel. */
  ghost predicate Holds(bits: seq<U8>, width: nat, height: nat, pitch: nat) {
    forall y: nat, x: nat :: y < height && x < width ==> Offset(y, x, pitch) < |bits|
  }

  ghost predicate OccursInRow(bits: seq<U8>, width: nat, y: nat, pitch: nat, v: U8) {
    exists x: nat :: x < width && Offset(y, x, pitch) < |bits| && bits[Offset(y, x, pitch)] == v
  }

  /** The palette index occurs in the meaningful part of the image. */
  ghost predicate Occurs(bits: seq<U8>, width: nat, height: nat, pitch: nat, v: U8) {
    exists y: nat :: y < height && OccursInRow(bits, width, y, pitch, v)
  }

  /** The indices used, ascending. */
  method BuildSubset(bits: seq<U8>, width: nat, height: nat, pitch: nat) returns (index: seq<U8>)
    requires Holds(bits, width, height, pitch)
    ensures forall v: U8 :: v in index <==> Occurs(bits, width, height, pitch, v)
    ensures forall i, j :: 0 <= i < j < |index| ==> index[i] < index[j]
  {
    hide Offset, OccursInRow;
    var used := new bool[256](i => false);
    var y := 0;
    while y < height
      invariant 0 <= y <= height
      invariant forall v: U8 :: used[v] <==> Occurs(bits, width, y, pitch, v)
    {
      MarkRow(bits, width, y, height, pitch, used);
      y := y + 1;
    }
    index := Ascending(used);
  }

  method MarkRow(bits: seq<U8>, width: nat, y: nat, height: nat, pitch: nat, used: array<bool>)
    requires Holds(bits, width, height, pitch) && y < height && used.Length == 256
    modifies used
    ensures forall v: U8 :: used[v] <==> old(used[v]) || OccursInRow(bits, width, y, pitch, v)
  {
    hide Offset;
    var x := 0;
    while x < width
      invariant 0 <= x <= width
      invariant forall v: U8 :: used[v] <==> old(used[v]) || OccursInRow(bits, x, y, pitch, v)
    {
      var c := bits[Offset(y, x, pitch)];
      used[c] := true;
      x := x + 1;
    }
  }

  method Ascending(used: array<bool>) returns (index: seq<U8>)
    requires used.Length == 256
    ensures forall v: U8 :: v in index <==> used[v]
    ensures forall i, j :: 0 <= i < j < |index| ==> index[i] < index[j]
  {
    index := [];
    var i := 0;
    while i < 256
      invariant 0 <= i <= 256
      invariant forall v: U8 :: v in index <==> v < i && used[v]
      invariant forall j :: 0 <= j < |index| ==> index[j] < i
      invariant forall j, k :: 0 <= j < k < |index| ==> index[j] < index[k]
    {
      if used[i] {
        index := index + [i];
      }
      i := i + 1;
    }
  }

  // ---- Box averages

  function RowTotal(bits: seq<U8>, x0: nat, x1: nat, y: nat, pitch: nat, colour: U8 -> Rgb): Rgb
    requires forall x: nat :: x0 <= x < x1 ==> Offset(y, x, pitch) < |bits|
    decreases x1
  {
    if x1 <= x0 then ZERO
    else Plus(RowTotal(bits, x0, x1 - 1, y, pitch, colour), colour(bits[Offset(y, x1 - 1, pitch)]))
  }

  function BoxTotal(bits: seq<U8>, x0: nat, x1: nat, y0: nat, y1: nat, pitch: nat, colour: U8 -> Rgb): Rgb
    requires forall y: nat, x: nat :: y0 <= y < y1 && x0 <= x < x1 ==> Offset(y, x, pitch) < |bits|
    decreases y1
  {
    if y1 <= y0 then ZERO
    else Plus(BoxTotal(bits, x0, x1, y0, y1 - 1, pitch, colour), RowTotal(bits, x0, x1, y1 - 1, pitch, colour))
  }

  lemma RowTotalStep(bits: seq<U8>, x0: nat, x: nat, y: nat, pitch: nat, colour: U8 -> Rgb)
    requires forall i: nat :: x0 <= i <= x ==> Offset(y, i, pitch) < |bits|
    ensures RowTotal(bits, x0, x0, y, pitch, colour) == ZERO
    ensures x0 <= x ==>
      RowTotal(bits, x0, x + 1, y, pitch, colour)
      == Plus(RowTotal(bits, x0, x, y, pitch, colour), colour(bits[Offset(y, x, pitch)]))
  {
  }

  lemma BoxTotalStep(bits: seq<U8>, x0: nat, x1: nat, y0: nat, y: nat, pitch: nat, colour: U8 -> Rgb)
    requires forall i: nat, x: nat :: y0 <= i <= y && x0 <= x < x1 ==> Offset(i, x, pitch) < |bits|
    ensures BoxTotal(bits, x0, x1, y0, y0, pitch, colour) == ZERO
    ensures y0 <= y ==>
      BoxTotal(bits, x0, x1, y0, y + 1, pitch, colour)
      == Plus(BoxTotal(bits, x0, x1, y0, y, pitch, colour), RowTotal(bits, x0, x1, y, pitch, colour))
  {
    hide RowTotal;
  }

  lemma BoxTotalNothing(bits: seq<U8>, x0: nat, x1: nat, y0: nat, y1: nat, pitch: nat, colour: U8 -> Rgb)
    requires y1 <= y0
    ensures BoxTotal(bits, x0, x1, y0, y1, pitch, colour) == ZERO
  {
  }

  lemma RowTotalNothing(bits: seq<U8>, x0: nat, x1: nat, y: nat, pitch: nat, colour: U8 -> Rgb)
    requires x1 <= x0
    ensures RowTotal(bits, x0, x1, y, pitch, colour) == ZERO
  {
  }

  lemma OffsetsDiffer(y: nat, x: nat, y': nat, x': nat, pitch: nat)
    requires x < pitch && x' < pitch && (y != y' || x != x')
    ensures Offset(y, x, pitch) != Offset(y', x', pitch)
  {
    if y < y' {
      Stride(y, y', pitch);
    } else if y' < y {
      Stride(y', y, pitch);
    }
  }

  /** Another value at one place of the image changes the total of a row by the difference of the colours, if the
      row has the place, and not at all otherwise. */
  lemma {:induction false} RowTotalOf(bits: seq<U8>, x0: nat, x1: nat, y: nat, pitch: nat, colour: U8 -> Rgb, py: nat, px: nat, v: U8)
    requires x1 <= pitch && px < pitch && Offset(py, px, pitch) < |bits|
    requires forall x: nat :: x0 <= x < x1 ==> Offset(y, x, pitch) < |bits|
    ensures RowTotal(bits[Offset(py, px, pitch) := v], x0, x1, y, pitch, colour)
         == Plus(RowTotal(bits, x0, x1, y, pitch, colour),
                 if py == y && x0 <= px < x1 then Minus(colour(v), colour(bits[Offset(py, px, pitch)])) else ZERO)
    decreases x1
  {
    hide Offset, Plus, Minus;
    if x1 > x0 {
      RowTotalOf(bits, x0, x1 - 1, y, pitch, colour, py, px, v);
      var before, last := RowTotal(bits, x0, x1 - 1, y, pitch, colour), colour(bits[Offset(y, x1 - 1, pitch)]);
      Shifts(before, last, Minus(colour(v), colour(bits[Offset(py, px, pitch)])));
      if py == y && px == x1 - 1 {
        Replaced(last, colour(v));
      } else {
        OffsetsDiffer(py, px, y, x1 - 1, pitch);
      }
    } else {
      Shifts(ZERO, ZERO, ZERO);
    }
  }

  lemma Shifts(p: Rgb, q: Rgb, d: Rgb)
    ensures Plus(Plus(p, d), q) == Plus(Plus(p, q), d) == Plus(p, Plus(q, d))
    ensures Plus(p, ZERO) == p && Plus(Plus(p, q), ZERO) == Plus(p, q)
  {
  }

  lemma Replaced(p: Rgb, q: Rgb)
    ensures Plus(p, Minus(q, p)) == q
  {
  }

  /** The same of a box: every pixel of the box counts once, and no other. */
  lemma {:induction false} BoxTotalOf(bits: seq<U8>, x0: nat, x1: nat, y0: nat, y1: nat, pitch: nat, colour: U8 -> Rgb, py: nat, px: nat, v: U8)
    requires x1 <= pitch && px < pitch && Offset(py, px, pitch) < |bits|
    requires forall y: nat, x: nat :: y0 <= y < y1 && x0 <= x < x1 ==> Offset(y, x, pitch) < |bits|
    ensures BoxTotal(bits[Offset(py, px, pitch) := v], x0, x1, y0, y1, pitch, colour)
         == Plus(BoxTotal(bits, x0, x1, y0, y1, pitch, colour),
                 if y0 <= py < y1 && x0 <= px < x1 then Minus(colour(v), colour(bits[Offset(py, px, pitch)])) else ZERO)
    decreases y1
  {
    hide Offset, RowTotal, Plus, Minus;
    if y1 > y0 {
      BoxTotalOf(bits, x0, x1, y0, y1 - 1, pitch, colour, py, px, v);
      RowTotalOf(bits, x0, x1, y1 - 1, pitch, colour, py, px, v);
      Shifts(BoxTotal(bits, x0, x1, y0, y1 - 1, pitch, colour), RowTotal(bits, x0, x1, y1 - 1, pitch, colour),
             Minus(colour(v), colour(bits[Offset(py, px, pitch)])));
      Shifts(RowTotal(bits, x0, x1, y1 - 1, pitch, colour), ZERO, ZERO);
    } else {
      Shifts(ZERO, ZERO, ZERO);
    }
  }

  lemma PlusZero(p: Rgb, q: Rgb, r: Rgb)
    ensures Plus(p, ZERO) == p && Plus(Plus(p, q), r) == Plus(p, Plus(q, r))
  {
  }

  /** Cells of a box. */
  function Cells(rows: nat, columns: nat): nat {
    rows * columns
  }

  lemma CellsStep(rows: nat, columns: nat)
    ensures Cells(rows + 1, columns) == Cells(rows, columns) + columns
    ensures Cells(0, columns) == 0
    ensures rows > 0 && columns > 0 ==> Cells(rows, columns) > 0
  {
  }

  predicate Between(p: Rgb, low: int, high: int) {
    low <= p.r <= high && low <= p.g <= high && low <= p.b <= high
  }

  lemma ZeroBetween()
    ensures Between(ZERO, 0, 0)
  {
  }

  lemma BetweenPlus(p: Rgb, q: Rgb, a: int, b: int)
    requires Between(p, 0, a) && Between(q, 0, b)
    ensures Between(Plus(p, q), 0, a + b)
  {
  }

  lemma {:induction false} RowTotalBound(bits: seq<U8>, x0: nat, x1: nat, y: nat, pitch: nat, colour: U8 -> Rgb)
    requires forall x: nat :: x0 <= x < x1 ==> Offset(y, x, pitch) < |bits|
    requires x0 <= x1 && forall i: U8 :: IsColour(colour(i))
    ensures Between(RowTotal(bits, x0, x1, y, pitch, colour), 0, 255 * (x1 - x0))
    decreases x1
  {
    if x1 > x0 {
      RowTotalBound(bits, x0, x1 - 1, y, pitch, colour);
      assert IsColour(colour(bits[Offset(y, x1 - 1, pitch)]));
    }
  }

  lemma {:induction false} BoxTotalBound(bits: seq<U8>, x0: nat, x1: nat, y0: nat, y1: nat, pitch: nat, colour: U8 -> Rgb)
    requires forall y: nat, x: nat :: y0 <= y < y1 && x0 <= x < x1 ==> Offset(y, x, pitch) < |bits|
    requires x0 <= x1 && y0 <= y1 && forall i: U8 :: IsColour(colour(i))
    ensures Between(BoxTotal(bits, x0, x1, y0, y1, pitch, colour), 0, 255 * Cells(y1 - y0, x1 - x0))
    decreases y1
  {
    hide Cells, Offset, RowTotal, BoxTotal, IsColour, Between, Plus;
    CellsStep(0, x1 - x0);
    if y1 == y0 {
      BoxTotalNothing(bits, x0, x1, y0, y1, pitch, colour);
      ZeroBetween();
    } else {
      BoxTotalStep(bits, x0, x1, y0, y1 - 1, pitch, colour);
      BoxTotalBound(bits, x0, x1, y0, y1 - 1, pitch, colour);
      RowTotalBound(bits, x0, x1, y1 - 1, pitch, colour);
      CellsStep(y1 - 1 - y0, x1 - x0);
      BetweenPlus(BoxTotal(bits, x0, x1, y0, y1 - 1, pitch, colour), RowTotal(bits, x0, x1, y1 - 1, pitch, colour),
                  255 * Cells(y1 - 1 - y0, x1 - x0), 255 * (x1 - x0));
    }
  }

  lemma BetweenSum(p: Rgb, q: Rgb, low: nat, high: nat, m: nat, n: nat)
    requires Between(p, low * m, high * m) && Between(q, low * n, high * n)
    ensures Between(Plus(p, q), low * (m + n), high * (m + n))
  {
    assert low * (m + n) == low * m + low * n;
    assert high * (m + n) == high * m + high * n;
  }

  lemma BetweenNothing(low: nat, high: nat, n: nat)
    requires n == 0
    ensures Between(ZERO, low * n, high * n)
  {
  }

  lemma BetweenOnce(p: Rgb, low: nat, high: nat)
    requires Between(p, low, high)
    ensures Between(p, low * 1, high * 1)
  {
  }

  lemma {:induction false} RowTotalBetween(bits: seq<U8>, x0: nat, x1: nat, y: nat, pitch: nat, colour: U8 -> Rgb, low: nat, high: nat)
    requires x0 <= x1 && forall x: nat :: x0 <= x < x1 ==> Offset(y, x, pitch) < |bits| && Between(colour(bits[Offset(y, x, pitch)]), low, high)
    ensures Between(RowTotal(bits, x0, x1, y, pitch, colour), low * (x1 - x0), high * (x1 - x0))
    decreases x1
  {
    hide Offset, Between, Plus;
    if x1 > x0 {
      RowTotalBetween(bits, x0, x1 - 1, y, pitch, colour, low, high);
      BetweenOnce(colour(bits[Offset(y, x1 - 1, pitch)]), low, high);
      BetweenSum(RowTotal(bits, x0, x1 - 1, y, pitch, colour), colour(bits[Offset(y, x1 - 1, pitch)]), low, high, x1 - 1 - x0, 1);
    } else {
      BetweenNothing(low, high, x1 - x0);
    }
  }

  lemma {:induction false} BoxTotalBetween(bits: seq<U8>, x0: nat, x1: nat, y0: nat, y1: nat, pitch: nat, colour: U8 -> Rgb, low: nat, high: nat)
    requires x0 <= x1 && y0 <= y1
    requires forall y: nat, x: nat :: y0 <= y < y1 && x0 <= x < x1 ==> Offset(y, x, pitch) < |bits| && Between(colour(bits[Offset(y, x, pitch)]), low, high)
    ensures Between(BoxTotal(bits, x0, x1, y0, y1, pitch, colour), low * Cells(y1 - y0, x1 - x0), high * Cells(y1 - y0, x1 - x0))
    decreases y1
  {
    hide Cells, Offset, RowTotal, Between, Plus;
    CellsStep(0, x1 - x0);
    if y1 > y0 {
      BoxTotalBetween(bits, x0, x1, y0, y1 - 1, pitch, colour, low, high);
      RowTotalBetween(bits, x0, x1, y1 - 1, pitch, colour, low, high);
      CellsStep(y1 - 1 - y0, x1 - x0);
      BetweenSum(BoxTotal(bits, x0, x1, y0, y1 - 1, pitch, colour), RowTotal(bits, x0, x1, y1 - 1, pitch, colour), low, high,
                 Cells(y1 - 1 - y0, x1 - x0), x1 - x0);
    } else {
      BetweenNothing(low, high, Cells(y1 - y0, x1 - x0));
    }
  }

  /** The truncated mean over a box that lies inside the image. */
  ghost predicate IsMean(mean: Rgb, bits: seq<U8>, x0: nat, x1: nat, y0: nat, y1: nat, pitch: nat, colour: U8 -> Rgb) {
    && (forall y: nat, x: nat :: y0 <= y < y1 && x0 <= x < x1 ==> Offset(y, x, pitch) < |bits|)
    && x0 < x1 && y0 < y1 && Cells(y1 - y0, x1 - x0) > 0
    && var sum, count := BoxTotal(bits, x0, x1, y0, y1, pitch, colour), Cells(y1 - y0, x1 - x0);
       mean == Rgb(sum.r / count, sum.g / count, sum.b / count)
  }

  /** The mean of a box lies between the extremes of its pixels; a box of one colour has that colour. */
  lemma MeanIsBetween(mean: Rgb, bits: seq<U8>, x0: nat, x1: nat, y0: nat, y1: nat, pitch: nat, colour: U8 -> Rgb, low: nat, high: nat)
    requires IsMean(mean, bits, x0, x1, y0, y1, pitch, colour) && low <= high
    requires forall y: nat, x: nat :: y0 <= y < y1 && x0 <= x < x1 ==> Between(colour(bits[Offset(y, x, pitch)]), low, high)
    ensures Between(mean, low, high)
  {
    var count := Cells(y1 - y0, x1 - x0);
    BoxTotalBetween(bits, x0, x1, y0, y1, pitch, colour, low, high);
    var sum := BoxTotal(bits, x0, x1, y0, y1, pitch, colour);
    QuotientBetween(sum.r, count, low, high);
    QuotientBetween(sum.g, count, low, high);
    QuotientBetween(sum.b, count, low, high);
  }

  lemma QuotientBetween(a: int, d: nat, low: nat, high: nat)
    requires d > 0 && low * d <= a <= high * d
    ensures low <= a / d <= high
  {
    DivMonotone(low * d, a, d);
    DivMonotone(a, high * d, d);
    DivUnique(low * d, d, low, 0);
    DivUnique(high * d, d, high, 0);
  }

  /** A mean of colours is a colour. */
  method Average(bits: seq<U8>, x0: nat, x1: nat, y0: nat, y1: nat, pitch: nat, colour: U8 -> Rgb) returns (mean: Rgb)
    requires forall y: nat, x: nat :: y0 <= y < y1 && x0 <= x < x1 ==> Offset(y, x, pitch) < |bits|
    requires x0 < x1 && y0 < y1 && forall i: U8 :: IsColour(colour(i))
    ensures IsColour(mean)
    ensures IsMean(mean, bits, x0, x1, y0, y1, pitch, colour)
  {
    hide Cells, Offset, IsColour, RowTotal, BoxTotal, Plus;
    var sum, count := ZERO, 0;
    CellsStep(0, x1 - x0);
    var y := y0;
    BoxTotalNothing(bits, x0, x1, y0, y, pitch, colour);
    while y < y1
      invariant y0 <= y <= y1
      invariant sum == BoxTotal(bits, x0, x1, y0, y, pitch, colour)
      invariant count == Cells(y - y0, x1 - x0)
    {
      var x := x0;
      ghost var before := sum;
      RowTotalNothing(bits, x0, x, y, pitch, colour);
      PlusZero(before, ZERO, ZERO);
      while x < x1
        invariant x0 <= x <= x1
        invariant sum == Plus(before, RowTotal(bits, x0, x, y, pitch, colour))
        invariant count == Cells(y - y0, x1 - x0) + (x - x0)
      {
        RowTotalStep(bits, x0, x, y, pitch, colour);
        PlusZero(before, RowTotal(bits, x0, x, y, pitch, colour), colour(bits[Offset(y, x, pitch)]));
        sum := Plus(sum, colour(bits[Offset(y, x, pitch)]));
        x, count := x + 1, count + 1;
      }
      BoxTotalStep(bits, x0, x1, y0, y, pitch, colour);
      CellsStep(y - y0, x1 - x0);
      y := y + 1;
    }
    BoxTotalBound(bits, x0, x1, y0, y1, pitch, colour);
    CellsStep(y1 - y0, x1 - x0);
    mean := Rgb(sum.r / count, sum.g / count, sum.b / count);
    MeanIsColour(sum, count);
  }

  lemma MeanIsColour(sum: Rgb, count: int)
    requires count > 0 && Between(sum, 0, 255 * count)
    ensures IsColour(Rgb(sum.r / count, sum.g / count, sum.b / count))
  {
    MeanBound(sum.r, count);
    MeanBound(sum.g, count);
    MeanBound(sum.b, count);
  }

  lemma MeanBound(sum: int, count: int)
    requires count > 0 && 0 <= sum <= 255 * count
    ensures 0 <= sum / count <= 255
  {
    BelowQuotient(sum, count, 256);
  }

  // ---- In place

  /** The two accumulator rows, each with a guard cell at both ends. */
  class Diffuser {
    var errCur: array<Rgb>
    var errNext: array<Rgb>
    const width: nat

    ghost predicate Valid()
      reads this, errCur, errNext
    {
      errCur != errNext && errCur.Length == errNext.Length == width + 2
    }

    constructor (width: nat)
      ensures Valid() && this.width == width && fresh(errCur) && fresh(errNext)
      ensures errCur[..] == Zeros(width + 2) && errNext[..] == Zeros(width + 2)
    {
      this.width := width;
      errCur := new Rgb[width + 2](i => ZERO);
      errNext := new Rgb[width + 2](i => ZERO);
    }

    /** One pixel, with the source's index arithmetic; in scan order it is pixel n. */
    method Pixel(n: nat, forward: bool, average: Rgb, pal: Palette, ghost out: seq<U8>) returns (idx: U8)
      requires Valid() && n < width
      modifies errCur, errNext
      ensures Valid()
      ensures Row(View(errCur[..], forward), View(errNext[..], forward), out + [idx])
           == Diffuse(Row(View(old(errCur[..]), forward), View(old(errNext[..]), forward), out), n, average, pal)
    {
      hide Clamped, Rounded, View, Tap, Minus, Plus;
      ghost var row := Row(View(errCur[..], forward), View(errNext[..], forward), out);
      var x := if forward then n else width - 1 - n;
      ViewAt(errCur[..], forward, n + 1);
      var wanted := Plus(average, Rounded(errCur[x + 1]));
      idx := pal.snap(Clamped(wanted));
      var e := Minus(Clamped(wanted), pal.colour(idx));
      assert e == Error(row, n, average, pal);
      Spread(n, x, forward, e);
    }

    /** Spread an error from pixel x: 7 ahead, and 3, 5, 1 behind, below and ahead in the next row. */
    method Spread(ghost n: nat, x: nat, forward: bool, e: Rgb)
      requires Valid() && n < width && x == if forward then n else width - 1 - n
      modifies errCur, errNext
      ensures Valid()
      ensures View(errCur[..], forward) == Tap(View(old(errCur[..]), forward), n + 2, 7, e)
      ensures View(errNext[..], forward)
           == Tap(Tap(Tap(View(old(errNext[..]), forward), n, 3, e), n + 1, 5, e), n + 2, 1, e)
    {
      hide View, Tap, Plus, Times;
      var here, fwd, back := x + 1, if forward then x + 2 else x, if forward then x else x + 2;
      AddAt(errCur, n + 2, forward, fwd, 7, e);
      AddAt(errNext, n, forward, back, 3, e);
      AddAt(errNext, n + 1, forward, here, 5, e);
      AddAt(errNext, n + 2, forward, fwd, 1, e);
    }

    static method AddAt(a: array<Rgb>, ghost k: nat, ghost forward: bool, at: nat, w: int, e: Rgb)
      requires k < a.Length && at == Position(a.Length, k, forward)
      modifies a
      ensures View(a[..], forward) == Tap(View(old(a[..]), forward), k, w, e)
    {
      hide View, Tap, Plus, Times;
      TapView(a[..], forward, k, at, w, e);
      ghost var before := a[..];
      a[at] := Plus(a[at], Times(w, e));
      assert a[..] == before[at := Plus(before[at], Times(w, e))];
    }

    /** One row: scan it, then pass the accumulators on. */
    method DitherRow(averages: seq<Rgb>, forward: bool, pal: Palette) returns (row: seq<U8>)
      requires Valid() && |averages| == width && errNext[..] == Zeros(width + 2)
      modifies this, errCur, errNext
      ensures Valid() && errCur == old(errNext) && errNext == old(errCur) && errNext[..] == Zeros(width + 2)
      ensures var r := Scan(View(old(errCur[..]), forward), View(averages, forward), width, pal);
        row == View(r.out, forward) && errCur[..] == View(r.next, forward)
    {
      hide Diffuse, View, Scan, Zeros;
      ghost var start := View(errCur[..], forward);
      var scan := View(averages, forward);
      var out: seq<U8> := [];
      ZerosView(width + 2, forward);
      var n := 0;
      ScanBegins(start, scan, n, pal);
      while n < width
        invariant 0 <= n <= width && Valid() && |out| == n && errCur == old(errCur) && errNext == old(errNext)
        invariant Row(View(errCur[..], forward), View(errNext[..], forward), out) == Scan(start, scan, n, pal)
      {
        var idx := Pixel(n, forward, scan[n], pal, out);
        ScanContinues(start, scan, n, pal);
        out := out + [idx];
        n := n + 1;
      }
      ViewTwice(errNext[..], forward);
      row := View(out, forward);
      PassOn();
    }

    /** Swap the rows and clear the next one. */
    method PassOn()
      requires Valid()
      modifies this, errCur
      ensures Valid() && errCur == old(errNext) && errNext == old(errCur)
      ensures errCur[..] == old(errNext[..]) && errNext[..] == Zeros(width + 2)
    {
      errCur, errNext := errNext, errCur;
      forall i | 0 <= i < width + 2 {
        errNext[i] := ZERO;
      }
    }

    /** The whole image. */
    method Dither(averages: seq<seq<Rgb>>, pal: Palette) returns (rows: seq<seq<U8>>)
      requires Valid() && Rectangular(averages, width)
      requires errCur[..] == Zeros(width + 2) && errNext[..] == Zeros(width + 2)
      modifies this, errCur, errNext
      ensures rows == Dithered(averages, width, pal).rows
    {
      hide Scan, View, Zeros, Dithered;
      rows := [];
      var y, forward := 0, true;
      DitherBegins(averages, y, width, pal);
      while y < |averages|
        invariant 0 <= y <= |averages|
        invariant Valid() && {errCur, errNext} == {old(errCur), old(errNext)} && errNext[..] == Zeros(width + 2)
        invariant Image(errCur[..], forward, rows) == Dithered(averages[..y], width, pal)
      {
        var row := DitherRow(averages[y], forward, pal);
        DitherContinues(averages, y, width, pal);
        rows := rows + [row];
        y, forward := y + 1, !forward;
      }
      assert averages[..y] == averages;
    }
  }

  lemma ScanBegins(cur: seq<Rgb>, averages: seq<Rgb>, n: nat, pal: Palette)
    requires |cur| == |averages| + 2 && n == 0
    ensures Scan(cur, averages, n, pal) == Row(cur, Zeros(|cur|), [])
  {
  }

  lemma ScanContinues(cur: seq<Rgb>, averages: seq<Rgb>, n: nat, pal: Palette)
    requires |cur| == |averages| + 2 && n < |averages|
    ensures Scan(cur, averages, n + 1, pal) == Diffuse(Scan(cur, averages, n, pal), n, averages[n], pal)
  {
    hide Diffuse;
  }

  lemma DitherBegins(averages: seq<seq<Rgb>>, y: nat, width: nat, pal: Palette)
    requires Rectangular(averages, width) && y == 0
    ensures y <= |averages| && Dithered(averages[..y], width, pal) == Image(Zeros(width + 2), true, [])
  {
  }

  lemma DitherContinues(averages: seq<seq<Rgb>>, y: nat, width: nat, pal: Palette)
    requires Rectangular(averages, width) && y < |averages|
    ensures var before := Dithered(averages[..y], width, pal); var f := before.forward;
      var row := Scan(View(before.cur, f), View(averages[y], f), width, pal);
      Dithered(averages[..y + 1], width, pal) == Image(View(row.next, f), !f, before.rows + [View(row.out, f)])
  {
    hide Scan, View;
    assert averages[..y + 1][..y] == averages[..y];
  }

  // ---- The whole rendering

  datatype Stored = Stored(bits: seq<U8>, width: int, height: int, pitch: int)

  /** The stored image is one the renderer accepts. */
  predicate Acceptable(stored: Stored) {
    && 0 < stored.width <= 4096 && 0 < stored.height <= 4096
    && stored.width <= stored.pitch <= 4096
  }

  /** `RenderStoredMinimapAtSize`: refuses exactly the sizes it checks for; what it draws uses only palette
      indices that occur in the meaningful part of the stored image; with dithering on, and memory for its
      rows, the result is the diffusion of rows of colours.  `snapTo` is any choice among the entries of a nonempty subset. */
  method Render(destWidth: int, destHeight: int, stored: Stored, colour: U8 -> Rgb, snapTo: (seq<U8>, Rgb) -> U8,
                wanted: bool, buffers: bool, memory: bool)
    returns (ok: bool, rows: seq<seq<U8>>, ghost averages: seq<seq<Rgb>>, ghost index: seq<U8>)
    requires forall i: U8 :: IsColour(colour(i))
    requires forall s: seq<U8>, p: Rgb :: |s| > 0 ==> snapTo(s, p) in s
    requires Acceptable(stored) ==> |stored.bits| >= stored.height * stored.pitch
    ensures ok <==> buffers && destWidth > 0 && destHeight > 0 && Acceptable(stored)
    ensures ok ==> |rows| == destHeight && forall y :: 0 <= y < destHeight ==> |rows[y]| == destWidth
    ensures ok ==> |averages| == destHeight && Rectangular(averages, destWidth)
    ensures ok ==> forall y, x :: 0 <= y < destHeight && 0 <= x < destWidth ==> IsColour(averages[y][x]) && rows[y][x] in index
    ensures ok ==>
      AreMeans(averages, destWidth, destHeight, stored.bits, SourceSize(destWidth, stored.width),
               SourceSize(destHeight, stored.height), stored.pitch, colour)
    ensures ok ==> forall v: U8 :: v in index ==>
      Occurs(stored.bits, SourceSize(destWidth, stored.width), SourceSize(destHeight, stored.height), stored.pitch, v)
    ensures ok && wanted && memory ==> rows == Dithered(averages, destWidth, Palette(colour, p => snapTo(index, p))).rows
    ensures ok && !(wanted && memory) ==> rows == Snapped(averages, p => snapTo(index, p))
  {
    ok, rows, averages, index := false, [], [], [];
    if !buffers || destWidth <= 0 || destHeight <= 0 || !Acceptable(stored) {
      return;
    }
    var width, height := SourceSize(destWidth, stored.width), SourceSize(destHeight, stored.height);
    Meaningful(stored, width, height);
    var subset := BuildSubset(stored.bits, width, height, stored.pitch);
    SomethingOccurs(stored.bits, width, height, stored.pitch);
    ghost var v :| Occurs(stored.bits, width, height, stored.pitch, v);
    assert v in subset;
    index := subset;
    var means := Averages(destWidth, destHeight, stored.bits, width, height, stored.pitch, colour);
    averages := means;
    var snap := p => snapTo(subset, p);
    var dither := wanted && memory;
    if dither {
      var diffuser := new Diffuser(destWidth);
      rows := diffuser.Dither(means, Palette(colour, snap));
      ImageUsesSubset(means, destWidth, Palette(colour, snap), set u | u in subset);
    } else {
      rows := Snapped(means, snap);
    }
    ok := true;
  }

  function Snapped(averages: seq<seq<Rgb>>, snap: Rgb -> U8): (rows: seq<seq<U8>>)
    ensures |rows| == |averages|
    ensures forall y :: 0 <= y < |rows| ==>
      |rows[y]| == |averages[y]| && forall x :: 0 <= x < |rows[y]| ==> rows[y][x] == snap(averages[y][x])
  {
    seq(|averages|, y requires 0 <= y < |averages| =>
      seq(|averages[y]|, x requires 0 <= x < |averages[y]| => snap(averages[y][x])))
  }

  lemma Meaningful(stored: Stored, width: nat, height: nat)
    requires Acceptable(stored) && |stored.bits| >= stored.height * stored.pitch
    requires width <= stored.width && height <= stored.height
    ensures Holds(stored.bits, width, height, stored.pitch)
  {
    hide Offset;
    forall y: nat, x: nat | y < height && x < width ensures Offset(y, x, stored.pitch) < |stored.bits| {
      OffsetBound(y, x, stored.pitch, stored.height);
    }
  }

  lemma OffsetBound(y: nat, x: nat, pitch: nat, height: nat)
    requires y < height && x < pitch
    ensures Offset(y, x, pitch) < height * pitch
  {
    assert (y + 1) * pitch <= height * pitch;
  }

  lemma SomethingOccurs(bits: seq<U8>, width: nat, height: nat, pitch: nat)
    requires width > 0 && height > 0 && Holds(bits, width, height, pitch)
    ensures exists v :: Occurs(bits, width, height, pitch, v)
  {
    var v := bits[Offset(0, 0, pitch)];
    assert OccursInRow(bits, width, 0, pitch, v);
    assert Occurs(bits, width, height, pitch, v);
  }

  /** Each cell is the mean of its box. */
  ghost predicate AreMeans(averages: seq<seq<Rgb>>, destWidth: nat, destHeight: nat,
                           bits: seq<U8>, width: nat, height: nat, pitch: nat, colour: U8 -> Rgb)
    requires destWidth > 0 && destHeight > 0
  {
    forall y, x :: 0 <= y < |averages| && 0 <= x < |averages[y]| ==>
      IsMean(averages[y][x], bits, BoxStart(x, width, destWidth), BoxEnd(x, width, destWidth),
             BoxStart(y, height, destHeight), BoxEnd(y, height, destHeight), pitch, colour)
  }

  /** The mean colour of every box. */
  method Averages(destWidth: nat, destHeight: nat, bits: seq<U8>, width: nat, height: nat, pitch: nat, colour: U8 -> Rgb)
    returns (averages: seq<seq<Rgb>>)
    requires destWidth > 0 && destHeight > 0 && width > 0 && height > 0
    requires Holds(bits, width, height, pitch) && forall i: U8 :: IsColour(colour(i))
    ensures |averages| == destHeight && Rectangular(averages, destWidth)
    ensures forall y, x :: 0 <= y < destHeight && 0 <= x < destWidth ==> IsColour(averages[y][x])
    ensures AreMeans(averages, destWidth, destHeight, bits, width, height, pitch, colour)
  {
    hide BoxStart, BoxEnd, Offset, IsMean;
    averages := [];
    for y := 0 to destHeight
      invariant |averages| == y && Rectangular(averages, destWidth)
      invariant forall i, x :: 0 <= i < y && 0 <= x < destWidth ==> IsColour(averages[i][x])
      invariant AreMeans(averages, destWidth, destHeight, bits, width, height, pitch, colour)
    {
      var row: seq<Rgb> := [];
      BoxInBounds(y, height, destHeight);
      for x := 0 to destWidth
        invariant |row| == x && forall i :: 0 <= i < x ==> IsColour(row[i])
        invariant forall i :: 0 <= i < x ==>
          IsMean(row[i], bits, BoxStart(i, width, destWidth), BoxEnd(i, width, destWidth),
                 BoxStart(y, height, destHeight), BoxEnd(y, height, destHeight), pitch, colour)
      {
        BoxInBounds(x, width, destWidth);
        var mean := Average(bits, BoxStart(x, width, destWidth), BoxEnd(x, width, destWidth),
                            BoxStart(y, height, destHeight), BoxEnd(y, height, destHeight), pitch, colour);
        row := row + [mean];
      }
      averages := averages + [row];
    }
  }

  lemma ViewAt<T>(s: seq<T>, forward: bool, k: nat)
    requires k < |s|
    ensures View(s, forward)[k] == s[Position(|s|, k, forward)]
  {
  }

  lemma TapView(s: seq<Rgb>, forward: bool, k: nat, at: nat, w: int, e: Rgb)
    requires k < |s| && at == Position(|s|, k, forward)
    ensures at < |s| && View(s[at := Plus(s[at], Times(w, e))], forward) == Tap(View(s, forward), k, w, e)
  {
    ViewAt(s, forward, k);
    ViewUpdate(s, forward, k, Plus(s[at], Times(w, e)));
  }

  lemma ZerosView(n: nat, forward: bool)
    ensures View(Zeros(n), forward) == Zeros(n)
  {
  }
}
