/** Fixed-width unsigned integers of the C++ source, and serial-number comparison. */
module Words {
  type U8 = n: int | 0 <= n < 0x100
  type U16 = n: int | 0 <= n < 0x1_0000
  type U32 = n: int | 0 <= n < 0x1_0000_0000

  function Min(a: nat, b: nat): (m: nat)
    ensures m <= a && m <= b && (m == a || m == b)
  {
    if b < a then b else a
  }

  /** Subtraction on `std::uint32_t`, which wraps. */
  function Sub32(a: U32, b: U32): (d: U32)
    ensures (b + d) % 0x1_0000_0000 == a
  {
    if a >= b then a - b else a - b + 0x1_0000_0000
  }

  function Add32(a: U32, b: U32): (s: U32)
    ensures s == (a + b) % 0x1_0000_0000
  {
    if a + b < 0x1_0000_0000 then a + b else a + b - 0x1_0000_0000
  }

  /** Serial-number order on 32-bit sequences (section 3.2 of RFC 1982). */
  predicate Newer(a: U32, b: U32) {
    a != b && Sub32(a, b) < 0x8000_0000
  }

  /** `Newer` in the words of RFC 1982: a lies less than half the ring ahead of b.  It is asymmetric,
      and two different sequences are unordered exactly when they are half the ring apart. */
  lemma NewerIsSerialOrder(a: U32, b: U32)
    ensures Newer(a, b) <==> exists d: U32 :: 0 < d < 0x8000_0000 && Add32(b, d) == a
    ensures Newer(a, b) ==> !Newer(b, a)
    ensures a != b && !Newer(a, b) && !Newer(b, a) <==> Sub32(a, b) == 0x8000_0000
  {
    assert Add32(b, Sub32(a, b)) == a;
  }

  /** The driver's counter: incremented, never left at zero. */
  function NextSequence(s: U32): (n: U32)
    ensures n != 0
  {
    if s == 0xFFFF_FFFF then 1 else s + 1
  }

  /** The k-th sequence drawn from a counter that starts at zero. */
  function Drawn(k: nat): (s: U32)
    requires k > 0
    ensures s != 0
  {
    if k == 1 then NextSequence(0) else NextSequence(Drawn(k - 1))
  }

  lemma {:induction false} DrawnValue(k: nat)
    requires k > 0
    ensures Drawn(k) == (k - 1) % 0xFFFF_FFFF + 1
  {
    if k > 1 {
      DrawnValue(k - 1);
    }
  }

  /** Sequences repeat exactly with period 2^32 - 1: among fewer draws all are distinct. */
  lemma DrawnDistinct(j: nat, k: nat)
    requires 0 < j < k
    ensures Drawn(j) == Drawn(k) <==> (k - j) % 0xFFFF_FFFF == 0
  {
    hide Drawn, Phase;
    DrawnPhase(j);
    DrawnPhase(k);
    PhaseDifference(j - 1, k - 1);
    PhaseValue(k - j);
  }

  lemma PhaseValue(n: nat)
    ensures Phase(n) == n % 0xFFFF_FFFF
  {
  }

  /** Where the counter stands within its period. */
  function Phase(n: nat): (p: nat)
    ensures p < 0xFFFF_FFFF
  {
    n % 0xFFFF_FFFF
  }

  /** A draw is `Newer` than another while fewer than 2^31 steps lie between, where the skip over zero
      counts as a step of its own if the counter wraps in between. */
  lemma DrawnNewer(j: nat, k: nat)
    requires 0 < j < k
    ensures var ahead, wrapped := Phase(k - j), Phase(k - 1) < Phase(j - 1);
      Newer(Drawn(k), Drawn(j)) <==> 0 < ahead && (if wrapped then ahead + 1 else ahead) < 0x8000_0000
  {
    hide Newer, Phase, Drawn;
    DrawnPhase(j);
    DrawnPhase(k);
    PhaseDifference(j - 1, k - 1);
    NewerByPhase(Phase(k - 1), Phase(j - 1));
  }

  lemma DrawnPhase(k: nat)
    requires k > 0
    ensures Drawn(k) == Phase(k - 1) + 1
  {
    DrawnValue(k);
  }

  lemma NewerByPhase(p: nat, q: nat)
    requires p < 0xFFFF_FFFF && q < 0xFFFF_FFFF
    ensures Newer(p + 1, q + 1) <==> p != q && (if p < q then p - q + 0x1_0000_0000 else p - q) < 0x8000_0000
  {
  }

  lemma PhaseDifference(a: nat, b: nat)
    requires a < b
    ensures Phase(b - a) == if Phase(b) < Phase(a) then Phase(b) - Phase(a) + 0xFFFF_FFFF else Phase(b) - Phase(a)
  {
    var p, q := a / 0xFFFF_FFFF, b / 0xFFFF_FFFF;
    assert b - a == (q - p) * 0xFFFF_FFFF + (b % 0xFFFF_FFFF - a % 0xFFFF_FFFF);
  }
}
