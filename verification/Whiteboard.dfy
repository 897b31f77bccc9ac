/** The whiteboard's 256 by 256 spatial hash of drawn elements. */
module Whiteboard {
  class Element {
    const x1: int
    const y1: int
    const text: string
    const color: int
    const id: int

    /** `GraphicText` keeps at most 50 characters. */
    constructor (x: int, y: int, text: string, color: int, id: int)
      ensures x1 == x && y1 == y && this.color == color && this.id == id
      ensures this.text == if |text| <= 50 then text else text[..50]
    {
      x1, y1, this.color, this.id := x, y, color, id;
      this.text := if |text| <= 50 then text else text[..50];
    }
  }

  /** `(v >> 8) & 255`, on any sign. */
  function Cell(v: int): (c: nat)
    ensures c < 256
  {
    v / 256 % 256
  }

  /** The cells a scan from a to b visits: the two end cells are put in order. */
  predicate InScan(a: int, b: int, cell: nat) {
    var c, d := Cell(a), Cell(b);
    (if c <= d then c else d) <= cell <= (if c <= d then d else c)
  }

  predicate Scanned(a: int, b: int, v: int) {
    InScan(a, b, Cell(v))
  }

  /** A coordinate in stretches of 65536, cells, and the rest. */
  lemma Split(v: int)
    ensures v == v / 65536 * 65536 + Cell(v) * 256 + v % 256
  {
    var q := v / 256;
    assert q / 256 == v / 65536;
  }

  lemma SamePage(a: int, b: int)
    requires a <= b && a / 65536 == b / 65536
    ensures Cell(a) <= Cell(b)
  {
    Split(a);
    Split(b);
    hide Cell;
  }

  /** A scan visits the cell of every coordinate between its ends exactly when the ends lie in the same
      stretch of 65536, or their cells are the first and the last. */
  lemma ScanComplete(a: int, b: int)
    requires a <= b
    ensures (forall v :: a <= v <= b ==> Scanned(a, b, v))
      <==> a / 65536 == b / 65536 || Cell(a) + 255 == Cell(b) || Cell(b) + 255 == Cell(a)
  {
    if a / 65536 == b / 65536 {
      forall v | a <= v <= b ensures Scanned(a, b, v) {
        SamePage(a, v);
        SamePage(v, b);
      }
    } else {
      PageEnds(b / 65536);
      var page := b / 65536 * 65536;
      assert a <= page - 1 < page <= b;
      if forall v :: a <= v <= b ==> Scanned(a, b, v) {
        assert Scanned(a, b, page - 1) && Scanned(a, b, page);
      }
    }
  }

  lemma PageEnds(p: int)
    ensures Cell(p * 65536) == 0 && Cell(p * 65536 - 1) == 255
  {
    var q := p * 256;
    assert p * 65536 / 256 == q && (p * 65536 - 1) / 256 == q - 1;
    assert q % 256 == 0 && (q - 1) % 256 == 255;
  }

  /** Deleting around a point scans ends 20 apart, so it never misses a cell, wherever the point is. */
  lemma NearbyScanComplete(a: int, v: int)
    requires a <= v <= a + 20
    ensures Scanned(a, a + 20, v)
  {
    if a / 65536 == (a + 20) / 65536 {
      SamePage(a, v);
      SamePage(v, a + 20);
    } else {
      Split(a);
      Split(a + 20);
      hide Cell;
      assert Cell(a) == 255 && Cell(a + 20) == 0;
    }
  }

  datatype Box = Box(x1: int, y1: int, x2: int, y2: int)
  {
    predicate Reaches(e: Element) {
      Scanned(x1, x2, e.x1) && Scanned(y1, y2, e.y1)
    }

    predicate HoldsClosed(e: Element) {
      x1 <= e.x1 <= x2 && y1 <= e.y1 <= y2
    }

    predicate HoldsHalfOpen(e: Element) {
      x1 <= e.x1 < x2 && y1 <= e.y1 < y2
    }
  }

  /** On a map of fewer than 65536 units either way a scan reaches everything an ordered rectangle holds. */
  lemma MapScanComplete(box: Box, e: Element)
    requires 0 <= box.x1 && 0 <= box.y1 && box.x2 < 65536 && box.y2 < 65536
    ensures box.HoldsClosed(e) ==> box.Reaches(e)
  {
    if box.HoldsClosed(e) {
      SamePage(box.x1, e.x1);
      SamePage(e.x1, box.x2);
      SamePage(box.y1, e.y1);
      SamePage(e.y1, box.y2);
    }
  }

  predicate Distinct(s: seq<Element>) {
    forall i, j :: 0 <= i < j < |s| ==> s[i] != s[j]
  }

  lemma DistinctAppend(s: seq<Element>, e: Element)
    ensures Distinct(s) ==> (Distinct(s + [e]) <==> e !in s)
  {
    var t := s + [e];
    if e in s {
      var i :| 0 <= i < |s| && s[i] == e;
      assert t[i] == t[|s|];
    }
  }

  lemma DropLast(s: seq<Element>, last: nat)
    requires |s| == last + 1 && Distinct(s)
    ensures Distinct(s[..last]) && forall e :: e in s[..last] <==> e in s && e != s[last]
  {
    assert s == s[..last] + [s[last]];
  }

  /** `std::list::remove`. */
  function Without(s: seq<Element>, e: Element): seq<Element> {
    if |s| == 0 then []
    else if s[0] == e then Without(s[1..], e)
    else [s[0]] + Without(s[1..], e)
  }

  lemma {:induction false} WithoutRemoves(s: seq<Element>, e: Element)
    ensures forall f :: f in Without(s, e) <==> f in s && f != e
    ensures Distinct(s) ==> Distinct(Without(s, e))
  {
    if |s| > 0 {
      WithoutRemoves(s[1..], e);
      if Distinct(s) {
        assert Distinct(s[1..]);
        assert s[0] !in s[1..];
      }
    }
  }

  /** The elements of a bucket that deletion from the box leaves there, in order. */
  function Kept(s: seq<Element>, box: Box): seq<Element> {
    if |s| == 0 then []
    else if box.HoldsHalfOpen(s[0]) then Kept(s[1..], box)
    else [s[0]] + Kept(s[1..], box)
  }

  lemma {:induction false} KeptMember(s: seq<Element>, box: Box, e: Element)
    ensures e in Kept(s, box) <==> e in s && !box.HoldsHalfOpen(e)
  {
    if |s| > 0 {
      KeptMember(s[1..], box, e);
    }
  }

  lemma {:induction false} KeptWithout(s: seq<Element>, e: Element, box: Box)
    requires box.HoldsHalfOpen(e)
    ensures Kept(Without(s, e), box) == Kept(s, box)
  {
    if |s| > 0 {
      KeptWithout(s[1..], e, box);
      var rest := Without(s[1..], e);
      if s[0] != e {
        assert ([s[0]] + rest)[1..] == rest;
      }
    }
  }

  lemma {:induction false} KeptAll(s: seq<Element>, box: Box)
    requires forall e :: e in s ==> !box.HoldsHalfOpen(e)
    ensures Kept(s, box) == s
  {
    if |s| > 0 {
      KeptAll(s[1..], box);
    }
  }

  class ElementHandler {
    /** Indexed by row, then column. */
    const buckets: array2<seq<Element>>
    var all: set<Element>

    /** Every element is in its own bucket only, and `all` is the union of the buckets. */
    ghost predicate Valid()
      reads this, buckets
    {
      && buckets.Length0 == 256 && buckets.Length1 == 256
      && (forall y, x, e :: 0 <= y < 256 && 0 <= x < 256 && e in buckets[y, x] ==> e in all && Cell(e.y1) == y && Cell(e.x1) == x)
      && (forall e :: e in all ==> e in buckets[Cell(e.y1), Cell(e.x1)])
    }

    /** No element is in its bucket twice. */
    ghost predicate Once()
      reads this, buckets
    {
      forall y, x :: 0 <= y < buckets.Length0 && 0 <= x < buckets.Length1 ==> Distinct(buckets[y, x])
    }

    constructor ()
      ensures Valid() && Once() && all == {} && fresh(buckets)
    {
      buckets := new seq<Element>[256, 256]((_, _) => []);
      all := {};
    }

    /** Adding an element again would list it twice; no caller does. */
    method AddElement(e: Element)
      requires Valid()
      modifies this, buckets
      ensures Valid() && all == old(all) + {e}
      ensures old(Once()) ==> (Once() <==> e !in old(all))
      ensures forall i, j :: 0 <= i < 256 && 0 <= j < 256 ==>
        buckets[i, j] == if i == Cell(e.y1) && j == Cell(e.x1) then old(buckets[i, j]) + [e] else old(buckets[i, j])
    {
      var y, x := Cell(e.y1), Cell(e.x1);
      DistinctAppend(buckets[y, x], e);
      buckets[y, x] := buckets[y, x] + [e];
      all := all + {e};
      assert Once() ==> Distinct(buckets[y, x]);
    }

    method IsElement(e: Element?) returns (known: bool)
      ensures known <==> e != null && e in all
    {
      known := e != null && e in all;
    }

    /** Exactly the elements of the closed rectangle whose cells are scanned, once each. */
    method GetArea(box: Box) returns (r: seq<Element>)
      requires Valid()
      ensures Once() ==> Distinct(r)
      ensures forall e :: e in r <==>
        e in all && box.x1 <= e.x1 <= box.x2 && box.y1 <= e.y1 <= box.y2 && Scanned(box.x1, box.x2, e.x1) && Scanned(box.y1, box.y2, e.y1)
    {
      var sx1, sy1, sx2, sy2 := Cell(box.x1), Cell(box.y1), Cell(box.x2), Cell(box.y2);
      if sx1 > sx2 {
        sx1, sx2 := sx2, sx1;
      }
      if sy1 > sy2 {
        sy1, sy2 := sy2, sy1;
      }
      r := [];
      for y := sy1 to sy2 + 1
        invariant Once() ==> Distinct(r)
        invariant forall e :: e in r <==> e in all && box.HoldsClosed(e) && sx1 <= Cell(e.x1) <= sx2 && sy1 <= Cell(e.y1) < y
      {
        for x := sx1 to sx2 + 1
          invariant Once() ==> Distinct(r)
          invariant forall e :: e in r <==>
            (e in all && box.HoldsClosed(e) && sx1 <= Cell(e.x1) <= sx2
             && (sy1 <= Cell(e.y1) < y || (Cell(e.y1) == y && Cell(e.x1) < x)))
        {
          r := Collect(y, x, box, r);
        }
      }
    }

    method Collect(y: nat, x: nat, box: Box, before: seq<Element>) returns (r: seq<Element>)
      requires Valid() && y < 256 && x < 256
      requires forall e :: e in before ==> e !in buckets[y, x]
      ensures Once() && Distinct(before) ==> Distinct(r)
      ensures forall e :: e in r <==> e in before || (e in buckets[y, x] && box.HoldsClosed(e))
    {
      r := before;
      var b := buckets[y, x];
      for k := 0 to |b|
        invariant Once() && Distinct(before) ==> Distinct(r)
        invariant forall e :: e in r <==> e in before || (e in b[..k] && box.HoldsClosed(e))
      {
        if box.HoldsClosed(b[k]) {
          r := r + [b[k]];
        }
      }
    }

    /** Takes an element out of its bucket and out of the set. */
    method Remove(e: Element)
      requires Valid()
      modifies this, buckets
      ensures Valid() && all == old(all) - {e} && (old(Once()) ==> Once())
      ensures forall i, j :: 0 <= i < 256 && 0 <= j < 256 ==>
        buckets[i, j] == if i == Cell(e.y1) && j == Cell(e.x1) then Without(old(buckets[i, j]), e) else old(buckets[i, j])
    {
      var y, x := Cell(e.y1), Cell(e.x1);
      WithoutRemoves(buckets[y, x], e);
      buckets[y, x] := Without(buckets[y, x], e);
      all := all - {e};
    }

    /** One bucket of `DeleteBetween`: what lies in the box is first listed, then removed from the back. */
    method ClearBucket(y: nat, x: nat, box: Box)
      requires Valid() && Once() && y < 256 && x < 256
      modifies this, buckets
      ensures Valid() && Once()
      ensures forall i, j :: 0 <= i < 256 && 0 <= j < 256 ==>
        buckets[i, j] == if i == y && j == x then Kept(old(buckets[i, j]), box) else old(buckets[i, j])
      ensures all == old(all) - set e | e in old(buckets[y, x]) && box.HoldsHalfOpen(e)
    {
      ghost var b := buckets[y, x];
      var doomed := Listed(buckets[y, x], box);
      while |doomed| > 0
        invariant Valid() && Once()
        invariant forall i, j :: 0 <= i < 256 && 0 <= j < 256 && !(i == y && j == x) ==> buckets[i, j] == old(buckets[i, j])
        invariant Distinct(doomed) && forall e :: e in doomed ==> e in b && box.HoldsHalfOpen(e)
        invariant forall e :: e in buckets[y, x] && box.HoldsHalfOpen(e) ==> e in doomed
        invariant Kept(buckets[y, x], box) == Kept(b, box)
        invariant forall e :: e in all <==> e in old(all) && (e in b && box.HoldsHalfOpen(e) ==> e in doomed)
      {
        var last := |doomed| - 1;
        var e := doomed[last];
        KeptWithout(buckets[y, x], e, box);
        WithoutRemoves(buckets[y, x], e);
        Remove(e);
        DropLast(doomed, last);
        doomed := doomed[..last];
      }
      KeptAll(buckets[y, x], box);
    }

    static method Listed(b: seq<Element>, box: Box) returns (doomed: seq<Element>)
      ensures forall e :: e in doomed <==> e in b && box.HoldsHalfOpen(e)
      ensures Distinct(b) ==> Distinct(doomed)
    {
      doomed := [];
      for k := 0 to |b|
        invariant forall e :: e in doomed <==> e in b[..k] && box.HoldsHalfOpen(e)
        invariant Distinct(b) ==> Distinct(doomed)
      {
        if box.HoldsHalfOpen(b[k]) {
          doomed := doomed + [b[k]];
        }
      }
    }

    /** Removes exactly the elements of the half-open rectangle whose cells are scanned; what stays in a
        bucket keeps its order. */
    method DeleteBetween(box: Box)
      requires Valid() && Once()
      modifies this, buckets
      ensures Valid() && Once() && all == set e | e in old(all) && !(box.HoldsHalfOpen(e) && box.Reaches(e))
      ensures forall i, j :: 0 <= i < 256 && 0 <= j < 256 ==>
        buckets[i, j] == if InScan(box.x1, box.x2, j) && InScan(box.y1, box.y2, i) then Kept(old(buckets[i, j]), box) else old(buckets[i, j])
    {
      var sx1, sy1, sx2, sy2 := Cell(box.x1), Cell(box.y1), Cell(box.x2), Cell(box.y2);
      if sx1 > sx2 {
        sx1, sx2 := sx2, sx1;
      }
      if sy1 > sy2 {
        sy1, sy2 := sy2, sy1;
      }
      for y := sy1 to sy2 + 1
        invariant Valid() && Once() && all <= old(all)
        invariant forall i, j :: 0 <= i < 256 && 0 <= j < 256 ==>
          buckets[i, j] == if sx1 <= j <= sx2 && sy1 <= i < y then Kept(old(buckets[i, j]), box) else old(buckets[i, j])
      {
        ClearRow(y, sx1, sx2, box);
      }
      forall e | e in old(all)
        ensures e in all <==> !(box.HoldsHalfOpen(e) && box.Reaches(e))
      {
        KeptMember(old(buckets[Cell(e.y1), Cell(e.x1)]), box, e);
      }
    }

    method ClearRow(y: nat, sx1: nat, sx2: nat, box: Box)
      requires Valid() && Once() && y < 256 && sx1 <= sx2 < 256
      modifies this, buckets
      ensures Valid() && Once() && all <= old(all)
      ensures forall i, j :: 0 <= i < 256 && 0 <= j < 256 ==>
        buckets[i, j] == if i == y && sx1 <= j <= sx2 then Kept(old(buckets[i, j]), box) else old(buckets[i, j])
    {
      for x := sx1 to sx2 + 1
        invariant Valid() && Once() && all <= old(all)
        invariant forall i, j :: 0 <= i < 256 && 0 <= j < 256 ==>
          buckets[i, j] == if i == y && sx1 <= j < x then Kept(old(buckets[i, j]), box) else old(buckets[i, j])
      {
        ClearBucket(y, x, box);
      }
    }

    /** Deletes exactly what lies in the square around the point, on any part of the map. */
    method DeleteOn(x: int, y: int)
      requires Valid() && Once()
      modifies this, buckets
      ensures Valid() && Once() && all == set e | e in old(all) && !(x - 10 <= e.x1 < x + 10 && y - 10 <= e.y1 < y + 10)
    {
      var box := Box(x - 10, y - 10, x + 10, y + 10);
      DeleteBetween(box);
      forall e | e in old(all) && box.HoldsHalfOpen(e)
        ensures box.Reaches(e)
      {
        NearbyScanComplete(x - 10, e.x1);
        NearbyScanComplete(y - 10, e.y1);
      }
    }

    /** An identical element at the new place takes the old one's. */
    method MoveTextElement(e: Element, x: int, y: int) returns (moved: Element)
      requires Valid() && |e.text| <= 50
      modifies this, buckets
      ensures Valid() && fresh(moved) && all == old(all) - {e} + {moved} && (old(Once()) ==> Once())
      ensures moved.x1 == x && moved.y1 == y && moved.text == e.text && moved.color == e.color && moved.id == e.id
    {
      moved := new Element(x, y, e.text, e.color, e.id);
      Remove(e);
      AddElement(moved);
    }
  }
}
