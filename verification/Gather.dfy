/** What dithering draws, said the other way around: no accumulators, but for each pixel which errors of which
    neighbours it receives.  The rows drawn are the only ones for which this holds. */
module DiffusionGather {
  import opened Words
  import opened ErrorDiffusion

  function At(s: seq<Rgb>, i: int): Rgb {
    if 0 <= i < |s| then s[i] else ZERO
  }

  /** The errors of a row; there are none beyond the image. */
  function RowAt(errors: seq<seq<Rgb>>, y: int): seq<Rgb> {
    if 0 <= y < |errors| then errors[y] else []
  }

  /** The direction in which a row is drawn. */
  function Direction(y: int): int {
    if y % 2 == 0 then 1 else -1
  }

  /** In sixteenths, from the row above: three of the pixel before, five of the pixel at the same place and one of
      the pixel after. */
  function FromAbove(above: seq<Rgb>, x: int, d: int): Rgb {
    Plus(Times(3, At(above, x - d)), Plus(Times(5, At(above, x)), At(above, x + d)))
  }

  /** And seven of the pixel drawn just before. */
  function Received(errors: seq<seq<Rgb>>, y: int, x: int): Rgb {
    var d := Direction(y);
    Plus(FromAbove(RowAt(errors, y - 1), x, d), Times(7, At(RowAt(errors, y), x - d)))
  }

  /** What is drawn at a pixel is the entry for its average and what it receives; its error is what that misses. */
  predicate PixelDrawn(averages: seq<seq<Rgb>>, errors: seq<seq<Rgb>>, rows: seq<seq<U8>>, pal: Palette, y: nat, x: nat)
    requires y < |averages| == |errors| == |rows| && x < |averages[y]| == |errors[y]| == |rows[y]|
  {
    var target := Clamped(Plus(averages[y][x], Rounded(Received(errors, y, x))));
    rows[y][x] == pal.snap(target) && errors[y][x] == Minus(target, pal.colour(rows[y][x]))
  }

  predicate Shaped<T>(rows: seq<seq<T>>, height: nat, width: nat) {
    |rows| == height && forall y :: 0 <= y < height ==> |rows[y]| == width
  }

  ghost predicate Drawn(averages: seq<seq<Rgb>>, width: nat, errors: seq<seq<Rgb>>, rows: seq<seq<U8>>, pal: Palette) {
    && Rectangular(averages, width) && Shaped(errors, |averages|, width) && Shaped(rows, |averages|, width)
    && forall y, x :: 0 <= y < |averages| && 0 <= x < width ==> PixelDrawn(averages, errors, rows, pal, y, x)
  }

  // ---- One row, in scan order

  /** The errors of the first n pixels of a scan. */
  function ScanErrors(cur: seq<Rgb>, averages: seq<Rgb>, n: nat, pal: Palette): (e: seq<Rgb>)
    requires |cur| == |averages| + 2 && n <= |averages|
    ensures |e| == n
  {
    if n == 0 then []
    else ScanErrors(cur, averages, n - 1, pal) + [Error(Scan(cur, averages, n - 1, pal), n - 1, averages[n - 1], pal)]
  }

  function Below(e: seq<Rgb>, j: int): Rgb {
    Plus(Times(3, At(e, j)), Plus(Times(5, At(e, j - 1)), At(e, j - 2)))
  }

  /** After n pixels each accumulator holds what the n errors gave it. */
  ghost predicate Gathered(cur: seq<Rgb>, e: seq<Rgb>, row: Row, n: nat) {
    && |e| == n && |row.cur| == |row.next| == |cur| && n + 1 < |cur|
    && row.cur[n + 1] == Plus(cur[n + 1], Times(7, At(e, n - 1)))
    && (forall i :: n + 1 < i < |cur| ==> row.cur[i] == cur[i])
    && (forall j :: 0 <= j < |cur| ==> row.next[j] == Below(e, j))
  }

  lemma {:induction false} ScanGathers(cur: seq<Rgb>, averages: seq<Rgb>, n: nat, pal: Palette)
    requires |cur| == |averages| + 2 && n <= |averages|
    ensures Gathered(cur, ScanErrors(cur, averages, n, pal), Scan(cur, averages, n, pal), n)
  {
    hide Gathered, Diffuse, Error;
    if n == 0 {
      NothingGathered(cur, ScanErrors(cur, averages, n, pal));
    } else {
      ScanGathers(cur, averages, n - 1, pal);
      DiffuseGathers(cur, ScanErrors(cur, averages, n - 1, pal), Scan(cur, averages, n - 1, pal), n - 1, averages[n - 1], pal);
    }
  }

  lemma NothingGathered(cur: seq<Rgb>, e: seq<Rgb>)
    requires |cur| > 1 && |e| == 0
    ensures Gathered(cur, e, Row(cur, Zeros(|cur|), []), 0)
  {
    forall j | 0 <= j < |cur| ensures Zeros(|cur|)[j] == Below(e, j) {
      NothingBelow(e, j);
    }
    hide Below;
    assert Plus(cur[1], Times(7, At(e, -1))) == cur[1];
  }

  lemma NothingBelow(e: seq<Rgb>, j: int)
    requires |e| == 0
    ensures Below(e, j) == ZERO
  {
    assert At(e, j) == At(e, j - 1) == At(e, j - 2) == ZERO;
    hide At;
  }

  lemma DiffuseGathers(cur: seq<Rgb>, e: seq<Rgb>, row: Row, n: nat, average: Rgb, pal: Palette)
    requires Gathered(cur, e, row, n) && n + 2 < |cur|
    ensures Gathered(cur, e + [Error(row, n, average, pal)], Diffuse(row, n, average, pal), n + 1)
  {
    hide Error, Chosen, Below;
    var err := Error(row, n, average, pal);
    var after := Diffuse(row, n, average, pal);
    forall j | 0 <= j < |cur| ensures after.next[j] == Below(e + [err], j) {
      BelowNext(e, err, row.next, j);
    }
  }

  /** One more error, tapped into the row below at three places. */
  lemma BelowNext(e: seq<Rgb>, err: Rgb, next: seq<Rgb>, j: nat)
    requires |e| + 2 < |next| && j < |next| && next[j] == Below(e, j)
    ensures Tap(Tap(Tap(next, |e|, 3, err), |e| + 1, 5, err), |e| + 2, 1, err)[j] == Below(e + [err], j)
  {
    hide Plus, Times, At;
    AtNext(e, err, j);
    AtNext(e, err, j - 1);
    AtNext(e, err, j - 2);
    Weighed(At(e, j), At(e, j - 1), At(e, j - 2), err);
  }

  lemma AtNext(e: seq<Rgb>, err: Rgb, i: int)
    ensures At(e + [err], i) == if i == |e| then err else At(e, i)
    ensures i == |e| ==> At(e, i) == ZERO
  {
  }

  /** In a sum of three weighted errors, one that was nothing becomes err. */
  lemma Weighed(p: Rgb, q: Rgb, r: Rgb, err: Rgb)
    ensures var sum := Plus(Times(3, p), Plus(Times(5, q), r));
      && (p == ZERO ==> Plus(sum, Times(3, err)) == Plus(Times(3, err), Plus(Times(5, q), r)))
      && (q == ZERO ==> Plus(sum, Times(5, err)) == Plus(Times(3, p), Plus(Times(5, err), r)))
      && (r == ZERO ==> Plus(sum, Times(1, err)) == Plus(Times(3, p), Plus(Times(5, q), err)))
  {
  }

  /** What the k-th pixel of a scan draws and misses, from the errors before it. */
  lemma {:induction false} ScanPixel(cur: seq<Rgb>, averages: seq<Rgb>, n: nat, pal: Palette, k: nat)
    requires |cur| == |averages| + 2 && k < n <= |averages|
    ensures var e, out := ScanErrors(cur, averages, n, pal), Scan(cur, averages, n, pal).out;
      var target := Clamped(Plus(averages[k], Rounded(Plus(cur[k + 1], Times(7, At(e, k - 1))))));
      out[k] == pal.snap(target) && e[k] == Minus(target, pal.colour(out[k]))
  {
    hide Rounded, Clamped, Plus, Times, Minus;
    if k < n - 1 {
      ScanPixel(cur, averages, n - 1, pal, k);
    } else {
      ScanGathers(cur, averages, k, pal);
    }
  }

  // ---- The image

  function Errors(averages: seq<seq<Rgb>>, width: nat, pal: Palette): (e: seq<seq<Rgb>>)
    requires Rectangular(averages, width)
    ensures |e| == |averages|
    decreases |averages|
  {
    if |averages| == 0 then []
    else
      var n := |averages| - 1;
      var before := Dithered(averages[..n], width, pal);
      var f := before.forward;
      Errors(averages[..n], width, pal) + [View(ScanErrors(View(before.cur, f), View(averages[n], f), width, pal), f)]
  }

  lemma {:induction false} ErrorsShaped(averages: seq<seq<Rgb>>, width: nat, pal: Palette)
    requires Rectangular(averages, width)
    ensures Shaped(Errors(averages, width, pal), |averages|, width)
    decreases |averages|
  {
    hide Scan, Dithered, ScanErrors;
    if |averages| > 0 {
      ErrorsShaped(averages[..|averages| - 1], width, pal);
    }
  }

  lemma AtView(s: seq<Rgb>, f: bool, i: int)
    ensures At(View(s, f), i) == At(s, if f then i else |s| - 1 - i)
  {
  }

  lemma {:induction false} Alternates(averages: seq<seq<Rgb>>, width: nat, pal: Palette)
    requires Rectangular(averages, width)
    ensures Dithered(averages, width, pal).forward <==> |averages| % 2 == 0
    decreases |averages|
  {
    hide Scan, View;
    if |averages| > 0 {
      Alternates(averages[..|averages| - 1], width, pal);
    }
  }

  function Sign(forward: bool): int {
    if forward then 1 else -1
  }

  /** The accumulators that one row leaves behind, as the next row, which goes the other way, finds them. */
  lemma RowPassesDown(next: seq<Rgb>, e: seq<Rgb>, f: bool, k: nat)
    requires |next| == |e| + 2 && k < |e| && forall j :: 0 <= j < |next| ==> next[j] == Below(e, j)
    ensures View(View(next, f), !f)[k + 1] == FromAbove(View(e, f), Position(|e|, k, !f), Sign(!f))
  {
    hide View, Plus, Times, At;
    Opposite(next, f, k);
    assert next[|e| - k] == Below(e, |e| - k);
    FromBelow(e, f, k);
  }

  lemma Opposite(next: seq<Rgb>, f: bool, k: nat)
    requires k + 2 < |next|
    ensures View(View(next, f), !f)[k + 1] == next[|next| - 2 - k]
  {
  }

  lemma FromBelow(e: seq<Rgb>, f: bool, k: nat)
    requires k < |e|
    ensures FromAbove(View(e, f), Position(|e|, k, !f), Sign(!f)) == Below(e, |e| - k)
  {
    hide View, Plus, Times, At;
    var x := Position(|e|, k, !f);
    AtView(e, f, x - Sign(!f));
    AtView(e, f, x);
    AtView(e, f, x + Sign(!f));
  }

  /** The accumulators a row is started with, in the order of its own scan. */
  lemma PassedOn(averages: seq<seq<Rgb>>, width: nat, pal: Palette, k: nat)
    requires Rectangular(averages, width) && k < width
    ensures var r := Dithered(averages, width, pal); var e := Errors(averages, width, pal);
      View(r.cur, r.forward)[k + 1]
      == if |averages| == 0 then ZERO else FromAbove(e[|averages| - 1], Position(width, k, r.forward), Sign(r.forward))
  {
    hide Scan, ScanErrors, FromAbove, View;
    if |averages| == 0 {
      ZerosAt(width, Dithered(averages, width, pal).forward, k);
    } else {
      var n := |averages| - 1;
      var before := Dithered(averages[..n], width, pal);
      var f := before.forward;
      var cur, avg := View(before.cur, f), View(averages[n], f);
      ScanGathers(cur, avg, width, pal);
      RowPassesDown(Scan(cur, avg, width, pal).next, ScanErrors(cur, avg, width, pal), f, k);
    }
  }

  lemma ZerosAt(width: nat, f: bool, k: nat)
    requires k < width
    ensures View(Zeros(width + 2), f)[k + 1] == ZERO
  {
  }

  /** One row, in image order: what its pixels draw and miss. */
  lemma PixelOfRow(cur: seq<Rgb>, averages: seq<Rgb>, f: bool, pal: Palette, x: nat)
    requires |cur| == |averages| + 2 && x < |averages|
    ensures var n := |averages|; var k := Position(n, x, f);
      var e, row := View(ScanErrors(cur, View(averages, f), n, pal), f), View(Scan(cur, View(averages, f), n, pal).out, f);
      var target := Clamped(Plus(averages[x], Rounded(Plus(cur[k + 1], Times(7, At(e, x - Sign(f)))))));
      row[x] == pal.snap(target) && e[x] == Minus(target, pal.colour(row[x]))
  {
    hide Scan, ScanErrors, View, Plus, Times, Minus, Clamped, Rounded, At;
    var n := |averages|;
    var k := Position(n, x, f);
    var avg := View(averages, f);
    var scanned, out := ScanErrors(cur, avg, n, pal), Scan(cur, avg, n, pal).out;
    ScanPixel(cur, avg, n, pal, k);
    PixelInView(averages, f, x);
    PixelInView(scanned, f, x);
    PixelInView(out, f, x);
    AtView(scanned, f, x - Sign(f));
  }

  lemma LastErrors(averages: seq<seq<Rgb>>, width: nat, pal: Palette)
    requires |averages| > 0 && Rectangular(averages, width)
    ensures var n := |averages| - 1; var before := Dithered(averages[..n], width, pal); var f := before.forward;
      Errors(averages, width, pal)
      == Errors(averages[..n], width, pal) + [View(ScanErrors(View(before.cur, f), View(averages[n], f), width, pal), f)]
  {
    hide Scan, ScanErrors, View, Dithered;
  }

  lemma PixelOfLastRow(averages: seq<seq<Rgb>>, width: nat, pal: Palette, e: seq<seq<Rgb>>, rows: seq<seq<U8>>, x: nat)
    requires Rectangular(averages, width) && |averages| > 0 && x < width
    requires Shaped(e, |averages|, width) && Shaped(rows, |averages|, width)
    requires e == Errors(averages, width, pal) && rows == Dithered(averages, width, pal).rows
    ensures PixelDrawn(averages, e, rows, pal, |averages| - 1, x)
  {
    hide Scan, ScanErrors, View, Plus, Times, Minus, Clamped, Rounded, At, Dithered, Errors, Received;
    var n := |averages| - 1;
    var before := Dithered(averages[..n], width, pal);
    var f := before.forward;
    LastErrors(averages, width, pal);
    LastRowDrawn(averages, width, pal);
    Alternates(averages[..n], width, pal);
    PassedOn(averages[..n], width, pal, Position(width, x, f));
    PixelOfRow(View(before.cur, f), averages[n], f, pal, x);
    ReceivedFrom(e, n, x, View(before.cur, f)[Position(width, x, f) + 1]);
  }

  lemma PixelInView<T>(s: seq<T>, f: bool, x: nat)
    requires x < |s|
    ensures Position(|s|, x, f) < |s| && View(s, f)[Position(|s|, x, f)] == s[x] && View(s, f)[x] == s[Position(|s|, x, f)]
  {
  }

  lemma ReceivedFrom(e: seq<seq<Rgb>>, n: nat, x: nat, passed: Rgb)
    requires n + 1 == |e| && passed == if n == 0 then ZERO else FromAbove(e[n - 1], x, Direction(n))
    ensures Received(e, n, x) == Plus(passed, Times(7, At(e[n], x - Direction(n))))
  {
    hide At, Plus, Times, FromAbove;
    if n == 0 {
      FromBlank(RowAt(e, n - 1), x, Direction(n));
    }
  }

  /** Nothing comes from a row without errors. */
  lemma FromBlank(above: seq<Rgb>, x: int, d: int)
    requires forall i :: 0 <= i < |above| ==> above[i] == ZERO
    ensures FromAbove(above, x, d) == ZERO
  {
    assert At(above, x - d) == At(above, x) == At(above, x + d) == ZERO;
    hide At;
  }

  lemma SameAbove(e: seq<seq<Rgb>>, n: nat, y: nat, x: nat)
    requires y < n <= |e|
    ensures Received(e[..n], y, x) == Received(e, y, x)
  {
    hide Plus, Times, At, FromAbove;
  }

  /** What dithering draws is what the neighbours' errors demand, at every pixel of every image. */
  lemma {:induction false} DitheredIsDrawn(averages: seq<seq<Rgb>>, width: nat, pal: Palette)
    requires Rectangular(averages, width)
    ensures Drawn(averages, width, Errors(averages, width, pal), Dithered(averages, width, pal).rows, pal)
    decreases |averages|
  {
    hide Received, Clamped, Rounded, Plus, Minus, Scan, ScanErrors, View;
    if |averages| > 0 {
      var n := |averages| - 1;
      var e, rows := Errors(averages, width, pal), Dithered(averages, width, pal).rows;
      DitheredIsDrawn(averages[..n], width, pal);
      LastErrors(averages, width, pal);
      LastRowDrawn(averages, width, pal);
      ErrorsShaped(averages, width, pal);
      hide Dithered, Errors;
      forall y: nat, x: nat | y < |averages| && x < width ensures PixelDrawn(averages, e, rows, pal, y, x) {
        if y < n {
          assert PixelDrawn(averages[..n], e[..n], rows[..n], pal, y, x);
          SameAbove(e, n, y, x);
        } else {
          PixelOfLastRow(averages, width, pal, e, rows, x);
        }
      }
    }
  }

  // ---- There is only one such drawing

  lemma ReceivedAgrees(e: seq<seq<Rgb>>, f: seq<seq<Rgb>>, height: nat, width: nat, y: nat, x: nat)
    requires Shaped(e, height, width) && Shaped(f, height, width) && y < height && x < width && e[..y] == f[..y]
    requires At(e[y], x - Direction(y)) == At(f[y], x - Direction(y))
    ensures Received(e, y, x) == Received(f, y, x)
  {
    hide Plus, Times, At, FromAbove;
    assert y > 0 ==> e[y - 1] == e[..y][y - 1] && f[y - 1] == f[..y][y - 1];
  }

  /** Pixel by pixel, in the order of drawing. */
  lemma {:induction false} RowAgrees(averages: seq<seq<Rgb>>, width: nat, pal: Palette, e: seq<seq<Rgb>>, rows: seq<seq<U8>>,
                                     e': seq<seq<Rgb>>, rows': seq<seq<U8>>, y: nat, k: nat)
    requires Drawn(averages, width, e, rows, pal) && Drawn(averages, width, e', rows', pal)
    requires y < |averages| && k < width && e[..y] == e'[..y]
    ensures var x := Position(width, k, y % 2 == 0); e[y][x] == e'[y][x] && rows[y][x] == rows'[y][x]
    decreases k
  {
    hide Received, Clamped, Rounded, Plus, Minus;
    var x := Position(width, k, y % 2 == 0);
    if k > 0 {
      RowAgrees(averages, width, pal, e, rows, e', rows', y, k - 1);
    }
    ReceivedAgrees(e, e', |averages|, width, y, x);
    assert PixelDrawn(averages, e, rows, pal, y, x) && PixelDrawn(averages, e', rows', pal, y, x);
  }

  lemma {:induction false} FirstRowsAgree(averages: seq<seq<Rgb>>, width: nat, pal: Palette, e: seq<seq<Rgb>>, rows: seq<seq<U8>>,
                                          e': seq<seq<Rgb>>, rows': seq<seq<U8>>, n: nat)
    requires Drawn(averages, width, e, rows, pal) && Drawn(averages, width, e', rows', pal) && n <= |averages|
    ensures e[..n] == e'[..n] && rows[..n] == rows'[..n]
  {
    if n > 0 {
      var y := n - 1;
      FirstRowsAgree(averages, width, pal, e, rows, e', rows', y);
      forall x: nat | x < width ensures e[y][x] == e'[y][x] && rows[y][x] == rows'[y][x] {
        RowAgrees(averages, width, pal, e, rows, e', rows', y, Position(width, x, y % 2 == 0));
      }
      hide Drawn;
      assert e[y] == e'[y] && rows[y] == rows'[y];
      assert e[..n] == e[..y] + [e[y]] && e'[..n] == e'[..y] + [e'[y]];
      assert rows[..n] == rows[..y] + [rows[y]] && rows'[..n] == rows'[..y] + [rows'[y]];
    }
  }

  /** Rows are what dithering draws exactly when some errors make them a drawing. */
  lemma DitheredExactly(averages: seq<seq<Rgb>>, width: nat, pal: Palette, rows: seq<seq<U8>>)
    requires Rectangular(averages, width)
    ensures rows == Dithered(averages, width, pal).rows <==> exists e :: Drawn(averages, width, e, rows, pal)
  {
    hide Drawn;
    DitheredIsDrawn(averages, width, pal);
    var drawn, errors := Dithered(averages, width, pal).rows, Errors(averages, width, pal);
    forall e | Drawn(averages, width, e, rows, pal) ensures rows == drawn {
      FirstRowsAgree(averages, width, pal, e, rows, errors, drawn, |averages|);
      Whole(averages, width, e, rows, errors, drawn, pal);
    }
  }

  lemma Whole(averages: seq<seq<Rgb>>, width: nat, e: seq<seq<Rgb>>, rows: seq<seq<U8>>, e': seq<seq<Rgb>>, rows': seq<seq<U8>>, pal: Palette)
    requires Drawn(averages, width, e, rows, pal) && Drawn(averages, width, e', rows', pal)
    ensures rows[..|averages|] == rows && rows'[..|averages|] == rows'
  {
  }

  /** An image whose every average is a colour of the palette that is snapped to itself is drawn as it is. */
  lemma ExactColoursStay(averages: seq<seq<Rgb>>, width: nat, pal: Palette, rows: seq<seq<U8>>)
    requires Rectangular(averages, width) && Shaped(rows, |averages|, width)
    requires forall y, x :: 0 <= y < |averages| && 0 <= x < width ==>
      IsColour(averages[y][x]) && rows[y][x] == pal.snap(averages[y][x]) && pal.colour(rows[y][x]) == averages[y][x]
    ensures Dithered(averages, width, pal).rows == rows
  {
    hide Received, Rounded, Clamped, Minus, Dithered;
    var none := seq(|averages|, y => Zeros(width));
    assert Blank(none);
    forall y: nat, x: nat | y < |averages| && x < width ensures PixelDrawn(averages, none, rows, pal, y, x) {
      NothingReceived(none, y, x);
      NothingMissed(averages[y][x]);
    }
    assert Drawn(averages, width, none, rows, pal);
    DitheredExactly(averages, width, pal, rows);
  }

  lemma NothingMissed(p: Rgb)
    requires IsColour(p)
    ensures Clamped(Plus(p, ZERO)) == p && Minus(p, p) == ZERO
  {
  }

  ghost predicate Blank(none: seq<seq<Rgb>>) {
    forall y, x :: 0 <= y < |none| && 0 <= x < |none[y]| ==> none[y][x] == ZERO
  }

  lemma NothingReceived(none: seq<seq<Rgb>>, y: nat, x: nat)
    requires Blank(none)
    ensures Rounded(Received(none, y, x)) == ZERO
  {
    hide FromAbove, At, Plus, Times, Rounded;
    var d := Direction(y);
    BlankRow(none, y - 1);
    BlankRow(none, y);
    FromBlank(RowAt(none, y - 1), x, d);
    NothingBefore(RowAt(none, y), x - d);
  }

  lemma BlankRow(none: seq<seq<Rgb>>, y: int)
    requires Blank(none)
    ensures forall i :: 0 <= i < |RowAt(none, y)| ==> RowAt(none, y)[i] == ZERO
  {
  }

  lemma NothingBefore(row: seq<Rgb>, x: int)
    requires forall i :: 0 <= i < |row| ==> row[i] == ZERO
    ensures Rounded(Plus(ZERO, Times(7, At(row, x)))) == ZERO
  {
    hide Rounded, Plus, Times;
    NothingRounded(ZERO, At(row, x));
  }

  lemma NothingRounded(p: Rgb, q: Rgb)
    requires p == q == ZERO
    ensures Rounded(Plus(p, Times(7, q))) == ZERO
  {
    assert Times(7, q) == q;
    hide Times;
    assert Plus(p, q) == p;
    hide Plus;
    assert Err16(0) == 0;
  }
}
