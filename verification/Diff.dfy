/** Snapshot differences and their application. */
module Diff {
  import opened Records
  import opened WireFormat

  /** Merge two canonical snapshots into removals and additions, in record order. */
  function Difference(a: seq<Record>, b: seq<Record>): (ops: seq<WireRecord>)
    decreases |a| + |b|
  {
    if a == [] && b == [] then []
    else if b == [] || (a != [] && Less(a[0], b[0])) then [Wire(a[0], true)] + Difference(a[1..], b)
    else if a == [] || Less(b[0], a[0]) then [Wire(b[0])] + Difference(a, b[1..])
    else Difference(a[1..], b[1..])
  }

  function WireAll(s: seq<Record>): (ops: seq<WireRecord>)
    ensures |ops| == |s|
    ensures forall i :: 0 <= i < |s| ==> ops[i] == Wire(s[i])
  {
    seq(|s|, i requires 0 <= i < |s| => Wire(s[i]))
  }

  /** Drop every occurrence of r. */
  function Without(s: seq<Record>, r: Record): (t: seq<Record>)
    ensures Elements(t) == Elements(s) - {r}
    ensures |t| <= |s|
  {
    if s == [] then []
    else
      assert forall v :: v in s <==> v == s[0] || v in s[1..];
      var rest := Without(s[1..], r);
      assert forall v :: v in rest <==> v in Elements(rest);
      assert forall v :: v in [s[0]] + rest <==> v == s[0] || v in rest;
      if Equal(r, s[0]) then EqualIsIdentity(r, s[0]); rest
      else EqualIsIdentity(r, s[0]); [s[0]] + rest
  }

  function ApplyOne(s: seq<Record>, w: WireRecord): seq<Record> {
    if HasRemove(w.rotation) then Without(s, Unwire(w)) else s + [Unwire(w)]
  }

  /** The receiver's loop over a reassembled transaction. */
  function ApplyAll(s: seq<Record>, ops: seq<WireRecord>): seq<Record>
    decreases |ops|
  {
    if ops == [] then s else ApplyAll(ApplyOne(s, ops[0]), ops[1..])
  }

  // ---- Set-level meaning of a difference

  ghost predicate AllValid(s: seq<Record>) {
    forall r :: r in s ==> ValidRecord(r)
  }

  lemma NotInCanonical(r: Record, s: seq<Record>)
    requires Canonical(s) && (s == [] || Less(r, s[0]))
    ensures r !in Elements(s)
  {
    forall i | 0 <= i < |s| ensures Less(r, s[i]) {
      assert i > 0 ==> Less(s[0], s[i]);
    }
  }

  lemma HeadElement(s: seq<Record>)
    requires s != []
    ensures Elements(s) == {s[0]} + Elements(s[1..])
  {
    assert forall v :: v in s <==> v == s[0] || v in s[1..];
  }

  lemma ApplyOneElements(s: seq<Record>, r: Record, remove: bool)
    requires ValidRecord(r)
    ensures Elements(ApplyOne(s, Wire(r, remove))) == if remove then Elements(s) - {r} else Elements(s) + {r}
  {
    WireRoundTrip(r, remove);
    assert forall v :: v in s + [r] <==> v in s || v == r;
  }

  /** Applied to any base, the operations drop what only a has and add what only b has. */
  lemma {:induction false} ApplyDifferenceElements(s: seq<Record>, a: seq<Record>, b: seq<Record>)
    requires Canonical(a) && Canonical(b) && AllValid(a) && AllValid(b)
    ensures Elements(ApplyAll(s, Difference(a, b)))
         == Elements(s) - (Elements(a) - Elements(b)) + (Elements(b) - Elements(a))
    decreases |a| + |b|
  {
    if a == [] && b == [] {
    } else if b == [] || (a != [] && Less(a[0], b[0])) {
      CanonicalTail(a);
      HeadElement(a);
      NotInCanonical(a[0], b);
      ApplyOneElements(s, a[0], true);
      ApplyDifferenceElements(ApplyOne(s, Wire(a[0], true)), a[1..], b);
    } else if a == [] || Less(b[0], a[0]) {
      CanonicalTail(b);
      HeadElement(b);
      NotInCanonical(b[0], a);
      ApplyOneElements(s, b[0], false);
      ApplyDifferenceElements(ApplyOne(s, Wire(b[0])), a, b[1..]);
    } else {
      EqualIsIdentity(a[0], b[0]);
      CanonicalTail(a);
      CanonicalTail(b);
      HeadElement(a);
      HeadElement(b);
      ApplyDifferenceElements(s, a[1..], b[1..]);
    }
  }

  /** Difference then application is the identity: a receiver that holds a ends up with exactly b. */
  lemma DifferenceThenApply(a: seq<Record>, b: seq<Record>)
    requires Canonical(a) && Canonical(b) && AllValid(a) && AllValid(b)
    ensures Canonicalized(ApplyAll(a, Difference(a, b))) == b
  {
    ApplyDifferenceElements(a, a, b);
    assert Elements(a) - (Elements(a) - Elements(b)) + (Elements(b) - Elements(a)) == Elements(b);
    CanonicalizedOf(ApplyAll(a, Difference(a, b)), b);
  }

  /** The same for a full transaction, whatever the receiver held before is irrelevant. */
  lemma FullThenApply(b: seq<Record>)
    requires Canonical(b) && AllValid(b)
    ensures Canonicalized(ApplyAll([], WireAll(b))) == b
  {
    ApplyFullPrefix([], b);
    assert [] + b == b;
    CanonicalizedOf(b, b);
  }

  lemma {:induction false} ApplyFullPrefix(s: seq<Record>, b: seq<Record>)
    requires AllValid(b)
    ensures ApplyAll(s, WireAll(b)) == s + b
    decreases |b|
  {
    if b == [] {
      assert s + b == s;
    } else {
      WireRoundTrip(b[0], false);
      assert WireAll(b)[1..] == WireAll(b[1..]);
      ApplyFullPrefix(s + [b[0]], b[1..]);
      assert s + [b[0]] + b[1..] == s + b;
    }
  }

  // ---- Size and validity of the operations

  lemma OneSided<T>(a: set<T>, b: set<T>, x: T)
    requires x !in a && x !in b
    ensures |({x} + a) - b| == |a - b| + 1
    ensures b - ({x} + a) == b - a
  {
    assert ({x} + a) - b == (a - b) + {x};
  }

  lemma Shared<T>(a: set<T>, b: set<T>, x: T)
    requires x !in a && x !in b
    ensures ({x} + a) - ({x} + b) == a - b
    ensures ({x} + b) - ({x} + a) == b - a
  {
  }

  /** One operation for each record that only one side has. */
  lemma {:induction false} DifferenceSize(a: seq<Record>, b: seq<Record>)
    requires Canonical(a) && Canonical(b)
    ensures |Difference(a, b)| == |Elements(a) - Elements(b)| + |Elements(b) - Elements(a)|
    decreases |a| + |b|
  {
    if a == [] && b == [] {
    } else if b == [] || (a != [] && Less(a[0], b[0])) {
      CanonicalTail(a);
      HeadElement(a);
      NotInCanonical(a[0], b);
      DifferenceSize(a[1..], b);
      OneSided(Elements(a[1..]), Elements(b), a[0]);
    } else if a == [] || Less(b[0], a[0]) {
      CanonicalTail(b);
      HeadElement(b);
      NotInCanonical(b[0], a);
      DifferenceSize(a, b[1..]);
      OneSided(Elements(b[1..]), Elements(a), b[0]);
    } else {
      EqualIsIdentity(a[0], b[0]);
      CanonicalTail(a);
      CanonicalTail(b);
      HeadElement(a);
      HeadElement(b);
      DifferenceSize(a[1..], b[1..]);
      Shared(Elements(a[1..]), Elements(b[1..]), a[0]);
    }
  }

  lemma {:induction false} DifferenceValid(a: seq<Record>, b: seq<Record>)
    requires AllValid(a) && AllValid(b)
    ensures forall w :: w in Difference(a, b) ==> ValidWire(w)
    decreases |a| + |b|
  {
    if a == [] && b == [] {
    } else if b == [] || (a != [] && Less(a[0], b[0])) {
      WireRoundTrip(a[0], true);
      DifferenceValid(a[1..], b);
    } else if a == [] || Less(b[0], a[0]) {
      WireRoundTrip(b[0], false);
      DifferenceValid(a, b[1..]);
    } else {
      DifferenceValid(a[1..], b[1..]);
    }
  }

  /** Nothing to send exactly when the snapshots agree. */
  lemma DifferenceEmpty(a: seq<Record>, b: seq<Record>)
    requires Canonical(a) && Canonical(b)
    ensures Difference(a, b) == [] <==> a == b
  {
    DifferenceSize(a, b);
    assert a == b ==> Elements(a) - Elements(b) == {};
    if Difference(a, b) == [] {
      assert Elements(a) - Elements(b) == {} && Elements(b) - Elements(a) == {};
      assert Elements(a) == Elements(b);
      CanonicalUnique(a, b);
    }
  }
}
