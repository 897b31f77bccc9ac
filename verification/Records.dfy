/** Build-queue records, their total order, and canonical snapshots. */
module Records {
  import opened Words

  datatype Record = Record(buildUnitId: U16, x: U16, y: U16, z: U16, rotation: U8)

  const MAX_RECORDS: nat := 1200

  predicate Less(a: Record, b: Record) {
    if a.x != b.x then a.x < b.x
    else if a.y != b.y then a.y < b.y
    else if a.z != b.z then a.z < b.z
    else if a.buildUnitId != b.buildUnitId then a.buildUnitId < b.buildUnitId
    else a.rotation < b.rotation
  }

  predicate Equal(a: Record, b: Record) {
    !Less(a, b) && !Less(b, a)
  }

  /** Equivalence under the order is plain equality, so `Equal` never merges different records. */
  lemma EqualIsIdentity(a: Record, b: Record)
    ensures Equal(a, b) <==> a == b
  {
  }

  /** A record as one number, its most significant digit the x coordinate. */
  function Key(r: Record): nat {
    (((r.x * 0x1_0000 + r.y) * 0x1_0000 + r.z) * 0x1_0000 + r.buildUnitId) * 0x100 + r.rotation
  }

  /** The order is that of the numbers. */
  lemma LessIsNumeric(a: Record, b: Record)
    ensures Less(a, b) <==> Key(a) < Key(b)
  {
  }

  /** Sorted without duplicates. */
  ghost predicate Canonical(s: seq<Record>) {
    forall i, j :: 0 <= i < j < |s| ==> Less(s[i], s[j])
  }

  ghost function Elements(s: seq<Record>): set<Record> {
    set r | r in s
  }

  /** What every record of a scan satisfies: a unit is named, and only the two facing bits are used. */
  predicate ValidRecord(r: Record) {
    r.buildUnitId != 0 && r.rotation <= 3
  }

  /** What a scan hands to a transmitter. */
  ghost predicate Snapshot(s: seq<Record>) {
    && Canonical(s)
    && |s| <= MAX_RECORDS
    && forall r :: r in s ==> ValidRecord(r)
  }

  // ---- Canonical sequences are determined by their elements

  lemma CanonicalTail(s: seq<Record>)
    requires Canonical(s) && s != []
    ensures Canonical(s[1..])
    ensures Elements(s[1..]) == Elements(s) - {s[0]}
  {
    forall r ensures r in s[1..] <==> r in s && r != s[0] {
      if r in s && r != s[0] {
        var i :| 0 <= i < |s| && s[i] == r;
        assert s[1..][i - 1] == r;
      }
      if r in s[1..] {
        var i :| 0 <= i < |s[1..]| && s[1..][i] == r;
        assert s[i + 1] == r && Less(s[0], s[i + 1]);
      }
    }
  }

  lemma SmallestFirst(s: seq<Record>, r: Record)
    requires Canonical(s) && r in s
    ensures |s| > 0 && !Less(r, s[0])
  {
    var i :| 0 <= i < |s| && s[i] == r;
  }

  lemma {:induction false} CanonicalUnique(a: seq<Record>, b: seq<Record>)
    requires Canonical(a) && Canonical(b) && Elements(a) == Elements(b)
    ensures a == b
  {
    assert |b| > 0 ==> b[0] in Elements(b);
    if |a| > 0 {
      assert a[0] in Elements(a) && a[0] in b;
      SmallestFirst(b, a[0]);
      assert b[0] in Elements(b) && b[0] in a;
      SmallestFirst(a, b[0]);
      EqualIsIdentity(a[0], b[0]);
      CanonicalTail(a);
      CanonicalTail(b);
      CanonicalUnique(a[1..], b[1..]);
      assert a == [a[0]] + a[1..] && b == [b[0]] + b[1..];
    }
  }

  lemma {:induction false} CanonicalSize(s: seq<Record>)
    requires Canonical(s)
    ensures |Elements(s)| == |s|
  {
    if s != [] {
      CanonicalTail(s);
      CanonicalSize(s[1..]);
      assert s[0] in Elements(s);
      assert Elements(s) == Elements(s[1..]) + {s[0]};
    }
  }

  // ---- Canonicalization

  /** Insert into a canonical sequence, keeping it canonical. */
  function Insert(s: seq<Record>, r: Record): (t: seq<Record>)
    requires Canonical(s)
    ensures Canonical(t) && Elements(t) == Elements(s) + {r}
  {
    if s == [] then [r]
    else if Less(r, s[0]) then
      assert forall i :: 0 <= i < |s| ==> Less(r, s[i]);
      assert forall v :: v in [r] + s <==> v == r || v in s;
      [r] + s
    else if Less(s[0], r) then
      CanonicalTail(s);
      var rest := Insert(s[1..], r);
      assert forall v :: v in rest <==> v in Elements(rest);
      assert forall v :: v in rest ==> Less(s[0], v) by {
        forall v | v in rest ensures Less(s[0], v) {
          if v != r {
            assert v in s[1..];
            var i :| 0 <= i < |s[1..]| && s[1..][i] == v;
            assert s[i + 1] == v;
          }
        }
      }
      var t := [s[0]] + rest;
      assert forall v :: v in t <==> v == s[0] || v in rest;
      assert forall v :: v in s <==> v == s[0] || v in s[1..];
      t
    else s
  }

  /** The canonical sequence with the elements of s (`CanonicalUnique`: there is only one). */
  function Canonicalized(s: seq<Record>): (t: seq<Record>)
    ensures Canonical(t) && Elements(t) == Elements(s)
  {
    if s == [] then []
    else
      var last := |s| - 1;
      assert forall v :: v in s <==> v in s[..last] || v == s[last];
      Insert(Canonicalized(s[..last]), s[last])
  }

  lemma CanonicalizedOf(s: seq<Record>, t: seq<Record>)
    requires Canonical(t) && Elements(t) == Elements(s)
    ensures Canonicalized(s) == t
  {
    CanonicalUnique(Canonicalized(s), t);
  }

  ghost predicate Sorted(s: seq<Record>) {
    forall i, j :: 0 <= i < j < |s| ==> !Less(s[j], s[i])
  }

  /** `std::sort` with `Less`: any order-respecting permutation (here by insertion). */
  method Sort(s: seq<Record>) returns (t: seq<Record>)
    ensures Sorted(t) && multiset(t) == multiset(s)
  {
    t := [];
    hide Sorted, Less;
    SortedNothing();
    for n := 0 to |s|
      invariant Sorted(t) && multiset(t) == multiset(s[..n])
    {
      var i := 0;
      while i < |t| && !Less(s[n], t[i])
        invariant 0 <= i <= |t|
        invariant forall k :: 0 <= k < i ==> !Less(s[n], t[k])
      {
        i := i + 1;
      }
      InsertSorted(t, i, s[n]);
      assert s[..n + 1] == s[..n] + [s[n]];
      t := t[..i] + [s[n]] + t[i..];
    }
    assert s[..|s|] == s;
  }

  lemma SortedNothing()
    ensures Sorted([])
  {
  }

  lemma InsertSorted(t: seq<Record>, i: nat, r: Record)
    requires Sorted(t) && i <= |t|
    requires forall k :: 0 <= k < i ==> !Less(r, t[k])
    requires i < |t| ==> Less(r, t[i])
    ensures var u := t[..i] + [r] + t[i..];
      Sorted(u) && multiset(u) == multiset(t) + multiset{r}
  {
    assert t == t[..i] + t[i..];
    forall k | i <= k < |t| ensures !Less(t[k], r) {
      assert k > i ==> !Less(t[k], t[i]);
    }
    hide Less;
  }

  lemma AppendCanonical(t: seq<Record>, r: Record)
    requires Canonical(t)
    requires |t| > 0 ==> Less(t[|t| - 1], r)
    ensures Canonical(t + [r])
  {
    forall i | 0 <= i < |t| ensures Less(t[i], r) {
      assert i < |t| - 1 ==> Less(t[i], t[|t| - 1]);
    }
  }

  /** Sort, then drop adjacent equals (`std::unique` keeps the first of each run). */
  method Canonicalize(s: seq<Record>) returns (t: seq<Record>)
    ensures t == Canonicalized(s)
  {
    var sorted := Sort(s);
    t := [];
    for n := 0 to |sorted|
      invariant Canonical(t)
      invariant Elements(t) == Elements(sorted[..n])
      invariant if n == 0 then t == [] else |t| > 0 && t[|t| - 1] == sorted[n - 1]
    {
      assert Elements(sorted[..n + 1]) == Elements(sorted[..n]) + {sorted[n]};
      if |t| == 0 || !Equal(t[|t| - 1], sorted[n]) {
        assert Elements(t + [sorted[n]]) == Elements(t) + {sorted[n]};
        assert n > 0 ==> !Less(sorted[n], sorted[n - 1]);
        AppendCanonical(t, sorted[n]);
        t := t + [sorted[n]];
      } else {
        EqualIsIdentity(t[|t| - 1], sorted[n]);
        assert sorted[n] in t && sorted[n] in Elements(t);
      }
    }
    assert sorted[..|sorted|] == sorted;
    assert forall v :: v in sorted <==> v in multiset(sorted);
    assert forall v :: v in s <==> v in multiset(s);
    CanonicalizedOf(s, t);
  }

  /** Element-wise comparison of two snapshots. */
  method Same(a: seq<Record>, b: seq<Record>) returns (same: bool)
    ensures same <==> a == b
  {
    if |a| != |b| {
      return false;
    }
    for i := 0 to |a|
      invariant a[..i] == b[..i]
    {
      EqualIsIdentity(a[i], b[i]);
      if !Equal(a[i], b[i]) {
        return false;
      }
    }
    assert a[..|a|] == a && b[..|b|] == b;
    return true;
  }
}
