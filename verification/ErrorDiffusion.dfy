/** Serpentine Floyd-Steinberg error diffusion, with accumulators in sixteenths. */
module ErrorDiffusion {
  import opened Words

  datatype Rgb = Rgb(r: int, g: int, b: int)

  const ZERO: Rgb := Rgb(0, 0, 0)

  function Plus(p: Rgb, q: Rgb): Rgb {
    Rgb(p.r + q.r, p.g + q.g, p.b + q.b)
  }

  function Minus(p: Rgb, q: Rgb): Rgb {
    Rgb(p.r - q.r, p.g - q.g, p.b - q.b)
  }

  function Times(k: int, p: Rgb): Rgb {
    Rgb(k * p.r, k * p.g, k * p.b)
  }

  /** Every channel lies in -bound..bound. */
  predicate Within(p: Rgb, bound: int) {
    -bound <= p.r <= bound && -bound <= p.g <= bound && -bound <= p.b <= bound
  }

  predicate IsColour(p: Rgb) {
    0 <= p.r <= 255 && 0 <= p.g <= 255 && 0 <= p.b <= 255
  }

  /** Sixteenths to units, to nearest and symmetric about zero (division on nonnegative numbers only). */
  function Err16(v: int): int {
    if v >= 0 then (v + 8) / 16 else -((-v + 8) / 16)
  }

  /** The nearest unit; halves go away from zero. */
  lemma Err16IsNearest(v: int, k: int)
    ensures var d, e := 16 * Err16(v) - v, 16 * k - v;
      (if d < 0 then -d else d) <= (if e < 0 then -e else e)
    ensures v % 16 == 8 ==> (v > 0 ==> 16 * Err16(v) > v) && (v < 0 ==> 16 * Err16(v) < v)
  {
  }

  function Rounded(p: Rgb): Rgb {
    Rgb(Err16(p.r), Err16(p.g), Err16(p.b))
  }

  function Clamp(v: int): int {
    if v < 0 then 0 else if v > 255 then 255 else v
  }

  /** The nearest channel value. */
  lemma ClampIsNearest(v: int, c: int)
    requires 0 <= c <= 255
    ensures 0 <= Clamp(v) <= 255
    ensures var d, e := Clamp(v) - v, c - v;
      (if d < 0 then -d else d) <= (if e < 0 then -e else e)
  {
  }

  function Clamped(p: Rgb): (c: Rgb)
    ensures IsColour(c)
  {
    Rgb(Clamp(p.r), Clamp(p.g), Clamp(p.b))
  }

  /** What rounding leaves behind. */
  function Residue(p: Rgb): Rgb {
    Minus(p, Times(16, Rounded(p)))
  }

  lemma ResidueIsSmall(p: Rgb)
    ensures Within(Residue(p), 8)
  {
  }

  // ---- One row, in scan order: position 0 and the last position are guards

  datatype Row = Row(cur: seq<Rgb>, next: seq<Rgb>, out: seq<U8>)

  /** A palette, and any choice of an entry for a colour. */
  datatype Palette = Palette(colour: U8 -> Rgb, snap: Rgb -> U8)

  ghost predicate PaletteOk(pal: Palette) {
    forall i: U8 :: IsColour(pal.colour(i))
  }

  function Tap(s: seq<Rgb>, i: nat, k: int, e: Rgb): (t: seq<Rgb>)
    requires i < |s|
    ensures |t| == |s|
  {
    s[i := Plus(s[i], Times(k, e))]
  }

  /** What is asked of the palette at the n-th pixel: the average corrected by the accumulated error. */
  function Wanted(row: Row, n: nat, average: Rgb): Rgb
    requires n + 1 < |row.cur|
  {
    Plus(average, Rounded(row.cur[n + 1]))
  }

  function Chosen(row: Row, n: nat, average: Rgb, pal: Palette): U8
    requires n + 1 < |row.cur|
  {
    pal.snap(Clamped(Wanted(row, n, average)))
  }

  function Error(row: Row, n: nat, average: Rgb, pal: Palette): Rgb
    requires n + 1 < |row.cur|
  {
    Minus(Clamped(Wanted(row, n, average)), pal.colour(Chosen(row, n, average, pal)))
  }

  /** The n-th pixel of the scan: choose an entry, and spread the error 7, 3, 5, 1. */
  function Diffuse(row: Row, n: nat, average: Rgb, pal: Palette): (r: Row)
    requires |row.cur| == |row.next| && n + 2 < |row.cur|
    ensures |r.cur| == |row.cur| == |r.next|
  {
    var e := Error(row, n, average, pal);
    Row(Tap(row.cur, n + 2, 7, e),
        Tap(Tap(Tap(row.next, n, 3, e), n + 1, 5, e), n + 2, 1, e),
        row.out + [Chosen(row, n, average, pal)])
  }

  function Zeros(n: nat): (z: seq<Rgb>)
    ensures |z| == n && forall i :: 0 <= i < n ==> z[i] == ZERO
  {
    seq(n, i => ZERO)
  }

  /** The row after n pixels of the scan. */
  function Scan(cur: seq<Rgb>, averages: seq<Rgb>, n: nat, pal: Palette): (r: Row)
    requires |cur| == |averages| + 2 && n <= |averages|
    ensures |r.cur| == |r.next| == |cur| && |r.out| == n
  {
    if n == 0 then Row(cur, Zeros(|cur|), []) else Diffuse(Scan(cur, averages, n - 1, pal), n - 1, averages[n - 1], pal)
  }

  // ---- Bounds

  /** How far each accumulator can be from zero after n pixels: nine sixteenths arrive from the row before,
      seven from the pixel before. */
  ghost predicate RowBounded(row: Row, n: nat) {
    && (forall i :: 0 <= i < |row.cur| && i <= n + 1 ==> Within(row.cur[i], 16 * 255))
    && (forall i :: n + 1 < i < |row.cur| ==> Within(row.cur[i], 9 * 255))
    && (forall i :: 0 <= i < |row.next| && i < n ==> Within(row.next[i], 9 * 255))
    && (n < |row.next| ==> Within(row.next[n], 6 * 255))
    && (n + 1 < |row.next| ==> Within(row.next[n + 1], 255))
    && (forall i :: n + 1 < i < |row.next| ==> row.next[i] == ZERO)
  }

  lemma ErrorIsSmall(row: Row, n: nat, average: Rgb, pal: Palette)
    requires n + 1 < |row.cur| && PaletteOk(pal)
    ensures Within(Error(row, n, average, pal), 255)
  {
    assert IsColour(pal.colour(Chosen(row, n, average, pal)));
  }

  lemma DiffuseBounded(row: Row, n: nat, average: Rgb, pal: Palette)
    requires |row.cur| == |row.next| && n + 2 < |row.cur| && PaletteOk(pal) && RowBounded(row, n)
    ensures RowBounded(Diffuse(row, n, average, pal), n + 1)
  {
    hide Error, Chosen;
    ErrorIsSmall(row, n, average, pal);
  }

  /** No accumulator ever leaves -16 * 255 .. 16 * 255, and what a row passes on stays within nine parts. */
  lemma {:induction false} ScanBounded(cur: seq<Rgb>, averages: seq<Rgb>, n: nat, pal: Palette)
    requires |cur| == |averages| + 2 && n <= |averages| && PaletteOk(pal)
    requires AllWithin(cur, 9 * 255)
    ensures RowBounded(Scan(cur, averages, n, pal), n)
  {
    if n > 0 {
      ScanBounded(cur, averages, n - 1, pal);
      DiffuseBounded(Scan(cur, averages, n - 1, pal), n - 1, averages[n - 1], pal);
    }
  }

  // ---- Conservation

  function Sum(s: seq<Rgb>): Rgb {
    if |s| == 0 then ZERO else Plus(s[0], Sum(s[1..]))
  }

  /** What has not been consumed after n pixels: the guard behind the scan, and everything ahead. */
  function Open(cur: seq<Rgb>, n: nat): Rgb
    requires n + 1 <= |cur|
  {
    Plus(cur[0], Sum(cur[n + 1..]))
  }

  function Residues(cur: seq<Rgb>, averages: seq<Rgb>, n: nat, pal: Palette): Rgb
    requires |cur| == |averages| + 2 && n <= |averages|
  {
    if n == 0 then ZERO
    else Plus(Residues(cur, averages, n - 1, pal), Residue(Scan(cur, averages, n - 1, pal).cur[n]))
  }

  /** How much the clamp took away, in all. */
  function Corrections(cur: seq<Rgb>, averages: seq<Rgb>, n: nat, pal: Palette): Rgb
    requires |cur| == |averages| + 2 && n <= |averages|
  {
    if n == 0 then ZERO
    else
      var w := Wanted(Scan(cur, averages, n - 1, pal), n - 1, averages[n - 1]);
      Plus(Corrections(cur, averages, n - 1, pal), Minus(w, Clamped(w)))
  }

  /** The sum of average minus chosen colour. */
  function Losses(averages: seq<Rgb>, out: seq<U8>, pal: Palette): Rgb
    requires |out| <= |averages|
  {
    if |out| == 0 then ZERO
    else
      var n := |out| - 1;
      Plus(Losses(averages, out[..n], pal), Minus(averages[n], pal.colour(out[n])))
  }

  lemma {:induction false} SumTap(s: seq<Rgb>, i: nat, k: int, e: Rgb)
    requires i < |s|
    ensures Sum(Tap(s, i, k, e)) == Plus(Sum(s), Times(k, e))
  {
    if i == 0 {
      assert Tap(s, 0, k, e)[1..] == s[1..];
    } else {
      assert Tap(s, i, k, e)[1..] == Tap(s[1..], i - 1, k, e);
      SumTap(s[1..], i - 1, k, e);
    }
  }

  lemma OpenStep(cur: seq<Rgb>, n: nat, e: Rgb)
    requires n + 2 < |cur|
    ensures Open(Tap(cur, n + 2, 7, e), n + 1) == Plus(Minus(Open(cur, n), cur[n + 1]), Times(7, e))
  {
    assert cur[n + 1..][1..] == cur[n + 2..];
    assert Tap(cur, n + 2, 7, e)[n + 2..] == Tap(cur[n + 2..], 0, 7, e);
    SumTap(cur[n + 2..], 0, 7, e);
  }

  /** One pixel: what is open and what is passed on changes by sixteen times the loss, but for the rounding
      residue and the clamp. */
  lemma DiffuseConserves(row: Row, n: nat, average: Rgb, pal: Palette)
    requires |row.cur| == |row.next| && n + 2 < |row.cur|
    ensures var r := Diffuse(row, n, average, pal); var w := Wanted(row, n, average);
      Plus(Open(r.cur, n + 1), Sum(r.next))
      == Minus(Plus(Plus(Open(row.cur, n), Sum(row.next)),
                    Times(16, Minus(average, pal.colour(Chosen(row, n, average, pal))))),
               Plus(Residue(row.cur[n + 1]), Times(16, Minus(w, Clamped(w)))))
  {
    hide Open, Sum, Tap, Err16, Clamp;
    var e := Error(row, n, average, pal);
    OpenStep(row.cur, n, e);
    var one := Tap(row.next, n, 3, e);
    var two := Tap(one, n + 1, 5, e);
    SumTap(row.next, n, 3, e);
    SumTap(one, n + 1, 5, e);
    SumTap(two, n + 2, 1, e);
  }

  lemma {:induction false} SumZeros(s: seq<Rgb>)
    requires forall i :: 0 <= i < |s| ==> s[i] == ZERO
    ensures Sum(s) == ZERO
  {
    if |s| > 0 {
      SumZeros(s[1..]);
    }
  }

  lemma SumHead(s: seq<Rgb>)
    requires |s| > 0
    ensures Sum(s) == Plus(s[0], Sum(s[1..]))
  {
  }

  lemma NothingScanned(cur: seq<Rgb>, averages: seq<Rgb>, n: nat, pal: Palette)
    requires |cur| == |averages| + 2 && n == 0
    ensures Scan(cur, averages, n, pal) == Row(cur, Zeros(|cur|), [])
    ensures Residues(cur, averages, n, pal) == Corrections(cur, averages, n, pal) == ZERO
    ensures Losses(averages, [], pal) == ZERO
    ensures Open(cur, n) == Sum(cur)
  {
    hide Sum, Diffuse;
    SumHead(cur);
  }

  lemma EmptyRow(cur: seq<Rgb>, averages: seq<Rgb>, n: nat, pal: Palette)
    requires |cur| == |averages| + 2 && n == 0
    ensures RowBalance(cur, averages, n, pal)
  {
    hide Sum, Zeros, Scan, Residues, Corrections, Losses, Open;
    SumZeros(Zeros(|cur|));
    NothingScanned(cur, averages, n, pal);
  }

  lemma NothingDithered(averages: seq<seq<Rgb>>, width: nat, pal: Palette)
    requires |averages| == 0
    ensures Dithered(averages, width, pal) == Image(Zeros(width + 2), true, [])
    ensures Wasted(averages, width, pal) == Waste(ZERO, ZERO, ZERO)
    ensures AllLosses(averages, [], pal) == ZERO
  {
    hide Scan, View;
  }

  lemma EmptyImage(averages: seq<seq<Rgb>>, width: nat, pal: Palette)
    requires |averages| == 0
    ensures ImageBalance(averages, width, pal)
  {
    hide Sum, Zeros, Dithered, Wasted, AllLosses;
    NothingDithered(averages, width, pal);
    SumZeros(Zeros(width + 2));
  }

  /** The balance of a row after n pixels. */
  ghost predicate RowBalance(cur: seq<Rgb>, averages: seq<Rgb>, n: nat, pal: Palette)
    requires |cur| == |averages| + 2 && n <= |averages|
  {
    var r := Scan(cur, averages, n, pal);
    Plus(Sum(cur), Times(16, Losses(averages, r.out, pal)))
    == Plus(Plus(Open(r.cur, n), Sum(r.next)),
            Plus(Residues(cur, averages, n, pal), Times(16, Corrections(cur, averages, n, pal))))
  }

  lemma RowBalanceStep(cur: seq<Rgb>, averages: seq<Rgb>, n: nat, pal: Palette)
    requires |cur| == |averages| + 2 && n < |averages| && RowBalance(cur, averages, n, pal)
    ensures RowBalance(cur, averages, n + 1, pal)
  {
    hide Open, Sum, Wanted, Chosen, Residue, Clamped, Plus, Minus, Times, Error, Tap;
    var before, average := Scan(cur, averages, n, pal), averages[n];
    var r := Scan(cur, averages, n + 1, pal);
    DiffuseConserves(before, n, average, pal);
    assert r.out[..n] == before.out && r.out[n] == Chosen(before, n, average, pal);
    var w := Wanted(before, n, average);
    Combine(Sum(cur), Losses(averages, before.out, pal), Plus(Open(before.cur, n), Sum(before.next)),
            Residues(cur, averages, n, pal), Corrections(cur, averages, n, pal),
            Minus(average, pal.colour(r.out[n])), Residue(before.cur[n + 1]), Minus(w, Clamped(w)),
            Plus(Open(r.cur, n + 1), Sum(r.next)));
  }

  /** Conservation over a row, exactly. */
  lemma {:induction false} ScanConserves(cur: seq<Rgb>, averages: seq<Rgb>, n: nat, pal: Palette)
    requires |cur| == |averages| + 2 && n <= |averages|
    ensures RowBalance(cur, averages, n, pal)
  {
    hide RowBalance;
    if n == 0 {
      EmptyRow(cur, averages, n, pal);
    } else {
      ScanConserves(cur, averages, n - 1, pal);
      RowBalanceStep(cur, averages, n - 1, pal);
    }
  }

  /** One more pixel in the balance. */
  lemma Combine(total: Rgb, losses: Rgb, open: Rgb, residues: Rgb, corrections: Rgb,
                loss: Rgb, residue: Rgb, correction: Rgb, open': Rgb)
    requires Plus(total, Times(16, losses)) == Plus(open, Plus(residues, Times(16, corrections)))
    requires open' == Minus(Plus(open, Times(16, loss)), Plus(residue, Times(16, correction)))
    ensures Plus(total, Times(16, Plus(losses, loss)))
         == Plus(open', Plus(Plus(residues, residue), Times(16, Plus(corrections, correction))))
  {
  }

  // ---- The image: directions alternate, and each row passes its accumulators on

  function Reverse<T>(s: seq<T>): (t: seq<T>)
    ensures |t| == |s|
    ensures forall i :: 0 <= i < |s| ==> t[i] == s[|s| - 1 - i]
  {
    seq(|s|, i requires 0 <= i < |s| => s[|s| - 1 - i])
  }

  /** A row of the image in scan order, or a scan back in image order. */
  function View<T>(s: seq<T>, forward: bool): (t: seq<T>)
    ensures |t| == |s|
  {
    if forward then s else Reverse(s)
  }

  lemma ViewTwice<T>(s: seq<T>, forward: bool)
    ensures View(View(s, forward), forward) == s
  {
  }

  /** Position k of the scan, as a position of the image row. */
  function Position(length: nat, k: nat, forward: bool): nat
    requires k < length
  {
    if forward then k else length - 1 - k
  }

  lemma ViewUpdate<T>(s: seq<T>, forward: bool, k: nat, v: T)
    requires k < |s|
    ensures View(s[Position(|s|, k, forward) := v], forward) == View(s, forward)[k := v]
  {
    if !forward {
      var t := s[|s| - 1 - k := v];
      forall i | 0 <= i < |s| ensures Reverse(t)[i] == Reverse(s)[k := v][i] {
      }
    }
  }

  lemma ViewWithin(s: seq<Rgb>, forward: bool, bound: int)
    requires AllWithin(s, bound)
    ensures AllWithin(View(s, forward), bound)
  {
  }

  datatype Image = Image(cur: seq<Rgb>, forward: bool, rows: seq<seq<U8>>)

  ghost predicate Rectangular(averages: seq<seq<Rgb>>, width: nat) {
    forall y :: 0 <= y < |averages| ==> |averages[y]| == width
  }

  /** The accumulators, in image order, and the rows, after all the given rows of averages. */
  function Dithered(averages: seq<seq<Rgb>>, width: nat, pal: Palette): (r: Image)
    requires Rectangular(averages, width)
    ensures |r.cur| == width + 2 && |r.rows| == |averages|
    ensures forall y :: 0 <= y < |r.rows| ==> |r.rows[y]| == width
    decreases |averages|
  {
    if |averages| == 0 then Image(Zeros(width + 2), true, [])
    else
      var before := Dithered(averages[..|averages| - 1], width, pal);
      var f := before.forward;
      var row := Scan(View(before.cur, f), View(averages[|averages| - 1], f), width, pal);
      Image(View(row.next, f), !f, before.rows + [View(row.out, f)])
  }

  /** Sums over all pixels of the image. */
  function AllLosses(averages: seq<seq<Rgb>>, rows: seq<seq<U8>>, pal: Palette): Rgb
    requires |averages| == |rows| && forall y :: 0 <= y < |rows| ==> |rows[y]| == |averages[y]|
    decreases |rows|
  {
    if |rows| == 0 then ZERO
    else
      var n := |rows| - 1;
      Plus(AllLosses(averages[..n], rows[..n], pal), Losses(averages[n], rows[n], pal))
  }

  /** Residues, corrections, and the guard cells discarded at the end of each row. */
  datatype Waste = Waste(residues: Rgb, corrections: Rgb, guards: Rgb)

  function Wasted(averages: seq<seq<Rgb>>, width: nat, pal: Palette): Waste
    requires Rectangular(averages, width)
    decreases |averages|
  {
    if |averages| == 0 then Waste(ZERO, ZERO, ZERO)
    else
      var n := |averages| - 1;
      var before, waste := Dithered(averages[..n], width, pal), Wasted(averages[..n], width, pal);
      var cur, avg := View(before.cur, before.forward), View(averages[n], before.forward);
      Waste(Plus(waste.residues, Residues(cur, avg, width, pal)),
            Plus(waste.corrections, Corrections(cur, avg, width, pal)),
            Plus(waste.guards, Open(Scan(cur, avg, width, pal).cur, width)))
  }

  lemma {:induction false} SumAppend(s: seq<Rgb>, p: Rgb)
    ensures Sum(s + [p]) == Plus(Sum(s), p)
  {
    if |s| == 0 {
      assert [] + [p] == [p];
    } else {
      assert (s + [p])[1..] == s[1..] + [p];
      SumAppend(s[1..], p);
    }
  }

  lemma {:induction false} SumReverse(s: seq<Rgb>)
    ensures Sum(Reverse(s)) == Sum(s)
    decreases |s|
  {
    if |s| > 0 {
      assert Reverse(s) == Reverse(s[1..]) + [s[0]];
      SumAppend(Reverse(s[1..]), s[0]);
      SumReverse(s[1..]);
    }
  }

  /** Losses do not depend on the direction in which a row is read. */
  lemma {:induction false} LossesAreSum(averages: seq<Rgb>, out: seq<U8>, pal: Palette)
    requires |out| <= |averages|
    ensures Losses(averages, out, pal)
         == Sum(seq(|out|, i requires 0 <= i < |out| => Minus(averages[i], pal.colour(out[i]))))
  {
    if |out| > 0 {
      var n := |out| - 1;
      var all := seq(|out|, i requires 0 <= i < |out| => Minus(averages[i], pal.colour(out[i])));
      var front := seq(n, i requires 0 <= i < n => Minus(averages[i], pal.colour(out[..n][i])));
      LossesAreSum(averages, out[..n], pal);
      SumAppend(front, all[n]);
      assert all == front + [all[n]];
    }
  }

  lemma LossesReverse(averages: seq<Rgb>, out: seq<U8>, pal: Palette)
    requires |out| == |averages|
    ensures Losses(Reverse(averages), Reverse(out), pal) == Losses(averages, out, pal)
  {
    LossesAreSum(averages, out, pal);
    LossesAreSum(Reverse(averages), Reverse(out), pal);
    var d := seq(|out|, i requires 0 <= i < |out| => Minus(averages[i], pal.colour(out[i])));
    var e := seq(|out|, i requires 0 <= i < |out| => Minus(Reverse(averages)[i], pal.colour(Reverse(out)[i])));
    assert e == Reverse(d);
    SumReverse(d);
  }

  /** Sixteen times the total of average minus chosen colour is exactly what is left in the last row and was
      discarded in guard cells, plus the rounding residues, plus sixteen times what the clamp took away. */
  ghost predicate ImageBalance(averages: seq<seq<Rgb>>, width: nat, pal: Palette)
    requires Rectangular(averages, width)
  {
    var image, waste := Dithered(averages, width, pal), Wasted(averages, width, pal);
    Times(16, AllLosses(averages, image.rows, pal))
    == Plus(Plus(Sum(image.cur), waste.guards), Plus(waste.residues, Times(16, waste.corrections)))
  }

  lemma ImageBalanceStep(averages: seq<seq<Rgb>>, width: nat, pal: Palette)
    requires |averages| > 0 && Rectangular(averages, width) && ImageBalance(averages[..|averages| - 1], width, pal)
    ensures ImageBalance(averages, width, pal)
  {
    hide Scan, Sum, Plus, Times, Open, Residues, Corrections, Losses, View;
    var n := |averages| - 1;
    var before, image := Dithered(averages[..n], width, pal), Dithered(averages, width, pal);
    var f := before.forward;
    var cur, avg := View(before.cur, f), View(averages[n], f);
    var row := Scan(cur, avg, width, pal);
    ScanConserves(cur, avg, width, pal);
    ViewSum(before.cur, f);
    ViewSum(row.next, f);
    ViewLosses(averages[n], row.out, f, pal);
    assert image.rows[..n] == before.rows && image.rows[n] == View(row.out, f);
    var waste := Wasted(averages[..n], width, pal);
    Balance(AllLosses(averages[..n], before.rows, pal), Sum(before.cur), waste.guards, waste.residues, waste.corrections,
            Losses(avg, row.out, pal), Sum(row.next), Open(row.cur, width),
            Residues(cur, avg, width, pal), Corrections(cur, avg, width, pal));
  }

  /** Conservation over the image, exactly. */
  lemma {:induction false} ImageConserves(averages: seq<seq<Rgb>>, width: nat, pal: Palette)
    requires Rectangular(averages, width)
    ensures ImageBalance(averages, width, pal)
    decreases |averages|
  {
    hide ImageBalance;
    if |averages| == 0 {
      EmptyImage(averages, width, pal);
    } else {
      ImageConserves(averages[..|averages| - 1], width, pal);
      ImageBalanceStep(averages, width, pal);
    }
  }

  lemma ViewSum(s: seq<Rgb>, forward: bool)
    ensures Sum(View(s, forward)) == Sum(s)
  {
    SumReverse(s);
  }

  lemma ViewLosses(averages: seq<Rgb>, out: seq<U8>, forward: bool, pal: Palette)
    requires |out| == |averages|
    ensures Losses(averages, View(out, forward), pal) == Losses(View(averages, forward), out, pal)
  {
    if !forward {
      LossesReverse(View(averages, forward), out, pal);
      ViewTwice(averages, forward);
    }
  }

  /** One more row in the balance. */
  lemma Balance(losses: Rgb, cur: Rgb, guards: Rgb, residues: Rgb, corrections: Rgb,
                loss: Rgb, next: Rgb, guard: Rgb, residue: Rgb, correction: Rgb)
    requires Times(16, losses) == Plus(Plus(cur, guards), Plus(residues, Times(16, corrections)))
    requires Plus(cur, Times(16, loss)) == Plus(Plus(guard, next), Plus(residue, Times(16, correction)))
    ensures Times(16, Plus(losses, loss))
         == Plus(Plus(next, Plus(guards, guard)), Plus(Plus(residues, residue), Times(16, Plus(corrections, correction))))
  {
  }

  ghost predicate AllWithin(s: seq<Rgb>, bound: int) {
    forall i :: 0 <= i < |s| ==> Within(s[i], bound)
  }

  /** What one row passes on to the next stays within nine parts, whatever the image. */
  lemma {:induction false} ImageBounded(averages: seq<seq<Rgb>>, width: nat, pal: Palette)
    requires Rectangular(averages, width) && PaletteOk(pal)
    ensures AllWithin(Dithered(averages, width, pal).cur, 9 * 255)
    decreases |averages|
  {
    hide AllWithin, Dithered;
    if |averages| == 0 {
      NothingDithered(averages, width, pal);
      ZerosWithin(width + 2);
    } else {
      var n := |averages| - 1;
      var before := Dithered(averages[..n], width, pal);
      ImageBounded(averages[..n], width, pal);
      RowPassesOn(before.cur, averages[n], before.forward, pal);
      LastRow(averages, width, pal);
    }
  }

  lemma ZerosWithin(n: nat)
    ensures AllWithin(Zeros(n), 9 * 255)
  {
  }

  lemma LastRow(averages: seq<seq<Rgb>>, width: nat, pal: Palette)
    requires |averages| > 0 && Rectangular(averages, width)
    ensures var n := |averages| - 1; var before := Dithered(averages[..n], width, pal);
      Dithered(averages, width, pal).cur
      == View(Scan(View(before.cur, before.forward), View(averages[n], before.forward), width, pal).next, before.forward)
  {
    hide Scan, View;
  }

  lemma RowPassesOn(cur: seq<Rgb>, averages: seq<Rgb>, f: bool, pal: Palette)
    requires |cur| == |averages| + 2 && PaletteOk(pal) && AllWithin(cur, 9 * 255)
    ensures AllWithin(View(Scan(View(cur, f), View(averages, f), |averages|, pal).next, f), 9 * 255)
  {
    hide Scan, View, Within, RowBounded;
    ViewWithin(cur, f, 9 * 255);
    var row := Scan(View(cur, f), View(averages, f), |averages|, pal);
    ScanBounded(View(cur, f), View(averages, f), |averages|, pal);
    NextWithin(row, |averages|);
    ViewWithin(row.next, f, 9 * 255);
  }

  lemma NextWithin(row: Row, width: nat)
    requires |row.next| == width + 2 && RowBounded(row, width)
    ensures AllWithin(row.next, 9 * 255)
  {
  }

  /** Only entries that `snap` can yield are ever used. */
  lemma {:induction false} OnlySnapped(cur: seq<Rgb>, averages: seq<Rgb>, n: nat, pal: Palette, subset: set<U8>)
    requires |cur| == |averages| + 2 && n <= |averages|
    requires forall p :: pal.snap(p) in subset
    ensures forall i :: 0 <= i < n ==> Scan(cur, averages, n, pal).out[i] in subset
  {
    if n > 0 {
      OnlySnapped(cur, averages, n - 1, pal, subset);
    }
  }

  ghost predicate Uses(row: seq<U8>, subset: set<U8>) {
    forall x :: 0 <= x < |row| ==> row[x] in subset
  }

  ghost predicate AllUse(rows: seq<seq<U8>>, subset: set<U8>) {
    forall y :: 0 <= y < |rows| ==> Uses(rows[y], subset)
  }

  lemma {:induction false} ImageUsesSubset(averages: seq<seq<Rgb>>, width: nat, pal: Palette, subset: set<U8>)
    requires Rectangular(averages, width) && forall p :: pal.snap(p) in subset
    ensures AllUse(Dithered(averages, width, pal).rows, subset)
    decreases |averages|
  {
    hide Uses, AllUse, Dithered, Scan, View;
    if |averages| == 0 {
      NothingDithered(averages, width, pal);
      NoneUsed(subset);
    } else {
      var n := |averages| - 1;
      var before := Dithered(averages[..n], width, pal);
      ImageUsesSubset(averages[..n], width, pal, subset);
      var f := before.forward;
      LastRowDrawn(averages, width, pal);
      RowUsesSubset(View(before.cur, f), View(averages[n], f), f, pal, subset);
      OneMoreUses(before.rows, View(Scan(View(before.cur, f), View(averages[n], f), width, pal).out, f), subset);
    }
  }

  lemma NoneUsed(subset: set<U8>)
    ensures AllUse([], subset)
  {
  }

  lemma OneMoreUses(rows: seq<seq<U8>>, row: seq<U8>, subset: set<U8>)
    requires AllUse(rows, subset) && Uses(row, subset)
    ensures AllUse(rows + [row], subset)
  {
    hide Uses;
  }

  lemma LastRowDrawn(averages: seq<seq<Rgb>>, width: nat, pal: Palette)
    requires |averages| > 0 && Rectangular(averages, width)
    ensures var n := |averages| - 1; var before := Dithered(averages[..n], width, pal); var f := before.forward;
      Dithered(averages, width, pal).rows == before.rows + [View(Scan(View(before.cur, f), View(averages[n], f), width, pal).out, f)]
  {
  }

  lemma RowUsesSubset(cur: seq<Rgb>, averages: seq<Rgb>, f: bool, pal: Palette, subset: set<U8>)
    requires |cur| == |averages| + 2 && forall p :: pal.snap(p) in subset
    ensures Uses(View(Scan(cur, averages, |averages|, pal).out, f), subset)
  {
    OnlySnapped(cur, averages, |averages|, pal, subset);
    hide Scan;
  }

  /** Everywhere in the image, at every moment: every accumulator lies within 16 * 255 of zero. */
  lemma AccumulatorsBounded(averages: seq<seq<Rgb>>, width: nat, pal: Palette, y: nat, n: nat)
    requires Rectangular(averages, width) && PaletteOk(pal) && y < |averages| && n <= width
    ensures var before := Dithered(averages[..y], width, pal); var f := before.forward;
      var row := Scan(View(before.cur, f), View(averages[y], f), n, pal);
      AllWithin(row.cur, 16 * 255) && AllWithin(row.next, 16 * 255)
  {
    hide Scan, View, Dithered;
    var before := Dithered(averages[..y], width, pal);
    ImageBounded(averages[..y], width, pal);
    ViewWithin(before.cur, before.forward, 9 * 255);
    ScanBounded(View(before.cur, before.forward), View(averages[y], before.forward), n, pal);
  }
}
