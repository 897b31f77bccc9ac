/** The scan's scratch table: open addressing over 4096 slots, linear probing, no deletion. */
module Collecting {
  import opened Words
  import opened Records

  const SLOTS: nat := 4096

  /** Keep a candidate unless it is already kept or the limit is reached. */
  function Keep(kept: seq<Record>, r: Record): seq<Record> {
    if |kept| == MAX_RECORDS || r in kept then kept else kept + [r]
  }

  function FirstDistinct(candidates: seq<Record>): seq<Record>
    decreases |candidates|
  {
    if candidates == [] then []
    else Keep(FirstDistinct(candidates[..|candidates| - 1]), candidates[|candidates| - 1])
  }

  ghost predicate Distinct(s: seq<Record>) {
    forall i, j :: 0 <= i < j < |s| ==> s[i] != s[j]
  }

  lemma {:induction false} KeptPrefix(candidates: seq<Record>) returns (n: nat)
    ensures var kept := FirstDistinct(candidates);
      && Distinct(kept) && |kept| <= MAX_RECORDS
      && n <= |candidates| && Elements(kept) == Elements(candidates[..n])
      && (n == |candidates| || |kept| == MAX_RECORDS)
    decreases |candidates|
  {
    if candidates == [] {
      n := 0;
    } else {
      var front, last := candidates[..|candidates| - 1], candidates[|candidates| - 1];
      n := KeptPrefix(front);
      assert front[..n] == candidates[..n];
      var before := FirstDistinct(front);
      if |before| < MAX_RECORDS {
        n := |candidates|;
        assert candidates[..n] == front + [last];
        KeepElements(before, last);
        assert front[..|front|] == front;
        assert Elements(front + [last]) == Elements(front) + {last};
      }
    }
  }

  lemma KeepElements(kept: seq<Record>, r: Record)
    requires |kept| < MAX_RECORDS
    ensures Elements(Keep(kept, r)) == Elements(kept) + {r}
  {
    assert forall v :: v in kept + [r] <==> v in kept || v == r;
  }

  /** The kept records are exactly the distinct ones of some prefix; that prefix is everything, unless the
      limit was reached within it. */
  lemma FirstDistinctMeaning(candidates: seq<Record>)
    ensures var kept := FirstDistinct(candidates);
      && Distinct(kept) && |kept| <= MAX_RECORDS
      && exists n :: 0 <= n <= |candidates| && Elements(kept) == Elements(candidates[..n])
                     && (n == |candidates| || |kept| == MAX_RECORDS)
  {
    var n := KeptPrefix(candidates);
  }

  /** A kept sequence loses nothing when it is canonicalized. */
  lemma {:induction false} DistinctSize(s: seq<Record>)
    requires Distinct(s)
    ensures |Elements(s)| == |s|
  {
    if s != [] {
      var front, last := s[..|s| - 1], s[|s| - 1];
      DistinctSize(front);
      assert Elements(s) == Elements(front) + {last};
      assert last !in front;
    }
  }

  lemma CanonicalizingDropsNone(s: seq<Record>)
    requires Distinct(s)
    ensures |Canonicalized(s)| == |s|
  {
    DistinctSize(s);
    CanonicalSize(Canonicalized(s));
  }

  // ---- Pigeonhole

  function Range(n: nat): (s: set<nat>)
    ensures |s| == n && forall i: nat :: i in s <==> i < n
  {
    if n == 0 then {} else Range(n - 1) + {n - 1}
  }

  function Image(s: seq<nat>): (v: set<nat>)
    ensures |v| <= |s| && forall i :: i in v <==> i in s
  {
    if s == [] then {}
    else
      var front, last := s[..|s| - 1], s[|s| - 1];
      assert forall i :: i in s <==> i in front || i == last;
      Image(front) + {last}
  }

  /** Fewer values than slots leave a slot out. */
  lemma SomeSlotIsFree(slots: seq<nat>) returns (free: nat)
    requires |slots| < SLOTS
    ensures free < SLOTS && free !in slots
  {
    var all, used := Range(SLOTS), Image(slots);
    assert all <= used ==> used == all + (used - all);
    free :| free in all && free !in used;
  }

  function Step(start: nat, d: nat): (i: nat)
    ensures i < SLOTS
  {
    (start + d) % SLOTS
  }

  lemma StepNext(start: nat, d: nat)
    ensures (Step(start, d) + 1) % SLOTS == Step(start, d + 1)
  {
  }

  lemma StepsTo(start: nat, i: nat) returns (d: nat)
    requires start < SLOTS && i < SLOTS
    ensures d < SLOTS && Step(start, d) == i && Step(start, 0) == start
  {
    d := if i >= start then i - start else i + SLOTS - start;
  }

  /** The scan state: `g_current`, `g_seen`, and for the proof the slot of each kept record. */
  class Scanner {
    const hash: Record -> U32
    const seen: array<U16>
    var current: seq<Record>
    ghost var slots: seq<nat>

    function Home(r: Record): (i: nat)
      ensures i < SLOTS
    {
      hash(r) % SLOTS
    }

    /** Record k is found by probing: from its home on, no free slot comes before its own. */
    ghost predicate Placed(k: nat)
      requires k < |current| == |slots| && seen.Length == SLOTS
      reads this, seen
    {
      && slots[k] < SLOTS && seen[slots[k]] as int == k + 1
      && exists d: nat :: d < SLOTS && Step(Home(current[k]), d) == slots[k]
           && forall e: nat :: e < d ==> seen[Step(Home(current[k]), e)] != 0
    }

    ghost predicate Valid()
      reads this, seen
    {
      && seen.Length == SLOTS
      && |slots| == |current| <= MAX_RECORDS
      && Distinct(current)
      && (forall k: nat :: k < |current| ==> Placed(k))
      && (forall i :: 0 <= i < SLOTS && seen[i] != 0 ==> seen[i] as int <= |current| && slots[seen[i] - 1] == i)
    }

    constructor (hash: Record -> U32)
      ensures Valid() && fresh(seen) && this.hash == hash && current == []
    {
      this.hash := hash;
      seen := new U16[SLOTS](i => 0);
      current, slots := [], [];
    }

    /** Probing from r's home reached a free slot without meeting r, so r is not kept. */
    lemma Missed(r: Record, d: nat)
      requires Valid() && seen[Step(Home(r), d)] == 0
      requires forall e: nat :: e < d ==>
        seen[Step(Home(r), e)] != 0 && current[seen[Step(Home(r), e)] - 1] != r
      ensures r !in current
    {
      forall k: nat | k < |current| ensures current[k] != r {
        assert Placed(k);
      }
    }

    /** The probe stops, on the record's own slot if it is kept and on a free slot otherwise. */
    method Probe(r: Record) returns (index: nat, ghost d: nat)
      requires Valid()
      ensures index < SLOTS
      ensures if r in current then seen[index] != 0 && current[seen[index] - 1] == r else seen[index] == 0
      ensures d < SLOTS && index == Step(Home(r), d)
      ensures forall e: nat :: e < d ==> seen[Step(Home(r), e)] != 0
    {
      hide Less, Equal, Step, Home;
      ghost var free := SomeSlotIsFree(slots);
      assert seen[free] == 0;
      ghost var limit := StepsTo(Home(r), free);
      index, d := Home(r), 0;
      while seen[index] != 0 && !Equal(current[seen[index] - 1], r)
        invariant d <= limit && index == Step(Home(r), d)
        invariant forall e: nat :: e < d ==>
          seen[Step(Home(r), e)] != 0 && current[seen[Step(Home(r), e)] - 1] != r
        decreases limit - d
      {
        EqualIsIdentity(current[seen[index] - 1], r);
        StepNext(Home(r), d);
        index, d := (index + 1) % SLOTS, d + 1;
      }
      if seen[index] != 0 {
        EqualIsIdentity(current[seen[index] - 1], r);
      } else {
        Missed(r, d);
      }
    }

    /** Add a record that the probe did not find, at the free slot where it stopped. */
    method Place(r: Record, index: nat, ghost d: nat)
      requires Valid() && r !in current && |current| < MAX_RECORDS
      requires index < SLOTS && seen[index] == 0
      requires d < SLOTS && index == Step(Home(r), d)
      requires forall e: nat :: e < d ==> seen[Step(Home(r), e)] != 0
      modifies this`current, this`slots, seen
      ensures Valid() && current == old(current) + [r]
    {
      current := current + [r];
      seen[index] := |current|;
      slots := slots + [index];
      forall k: nat | k < |current| ensures Placed(k) {
        if k < |old(current)| {
          assert old(Placed(k));
          var dk: nat :| dk < SLOTS && Step(Home(current[k]), dk) == slots[k]
            && forall e: nat :: e < dk ==> old(seen[Step(Home(current[k]), e)]) != 0;
          assert slots[k] != index;
        } else {
          assert Step(Home(current[k]), d) == slots[k];
        }
      }
    }

    /** `Collect`, over the candidates that the walk over units and orders yields. */
    method Collect(candidates: seq<Record>)
      requires seen.Length == SLOTS
      modifies this`current, this`slots, seen
      ensures current == Canonicalized(FirstDistinct(candidates))
      ensures |current| == |FirstDistinct(candidates)|
      ensures (forall r :: r in candidates ==> ValidRecord(r)) ==> Snapshot(current)
    {
      current, slots := [], [];
      forall i | 0 <= i < SLOTS {
        seen[i] := 0;
      }
      var n := 0;
      while n < |candidates| && |current| < MAX_RECORDS
        invariant 0 <= n <= |candidates| && Valid()
        invariant current == FirstDistinct(candidates[..n])
      {
        hide Home, Step;
        ghost var d;
        var index;
        assert candidates[..n + 1][..n] == candidates[..n];
        index, d := Probe(candidates[n]);
        if seen[index] == 0 {
          Place(candidates[n], index, d);
        }
        n := n + 1;
      }
      Saturated(candidates, n);
      CollectedIsSnapshot(candidates);
      hide FirstDistinct, Canonicalized, Snapshot;
      current := Canonicalize(current);
      var limit := if |current| > MAX_RECORDS then MAX_RECORDS else |current|;
      current := current[..limit];
    }
  }

  /** The canonical form of the kept candidates loses none of them, and is a snapshot. */
  lemma CollectedIsSnapshot(candidates: seq<Record>)
    ensures var kept := FirstDistinct(candidates);
      && |Canonicalized(kept)| == |kept| <= MAX_RECORDS
      && ((forall r :: r in candidates ==> ValidRecord(r)) ==> Snapshot(Canonicalized(kept)))
  {
    var kept := FirstDistinct(candidates);
    FirstDistinctMeaning(candidates);
    CanonicalizingDropsNone(kept);
    KeptAreCandidates(candidates);
    assert forall r :: r in Canonicalized(kept) ==> r in Elements(Canonicalized(kept)) && r in Elements(kept);
  }

  /** Once the limit is reached the remaining candidates change nothing. */
  lemma {:induction false} Saturated(candidates: seq<Record>, n: nat)
    requires n <= |candidates|
    requires n == |candidates| || |FirstDistinct(candidates[..n])| == MAX_RECORDS
    ensures FirstDistinct(candidates) == FirstDistinct(candidates[..n])
    decreases |candidates|
  {
    if n == |candidates| {
      assert candidates[..n] == candidates;
    } else {
      var front := candidates[..|candidates| - 1];
      assert front[..n] == candidates[..n];
      Saturated(front, n);
    }
  }

  lemma KeptAreCandidates(candidates: seq<Record>)
    ensures forall r :: r in FirstDistinct(candidates) ==> r in candidates
  {
    FirstDistinctMeaning(candidates);
    var kept := FirstDistinct(candidates);
    var n :| 0 <= n <= |candidates| && Elements(kept) == Elements(candidates[..n]);
    forall r | r in kept ensures r in candidates {
      assert r in Elements(kept);
      assert r in Elements(candidates[..n]);
    }
  }
}
