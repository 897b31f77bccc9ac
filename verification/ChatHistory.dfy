/** The engine's ring of chat lines, and the history retained from it. */
module ChatHistory {
  datatype Line = Line(text: string, alert: nat, logo: nat, flags: nat)

  const RING_SIZE: nat := 30
  const CAPACITY: nat := 512

  /** The engine's ring: 30 entries, `free` the next one to be written. */
  datatype Ring = Ring(lines: seq<Line>, free: nat)
  {
    predicate Valid() { |lines| == RING_SIZE && free < RING_SIZE }
  }

  function Next(j: nat): (n: nat)
    ensures n < RING_SIZE || n == j + 1
  {
    if j + 1 == RING_SIZE then 0 else j + 1
  }

  /** Steps forward from one ring index to another. */
  function Distance(from: nat, to: nat): nat
    requires from < RING_SIZE && to < RING_SIZE
  {
    if from <= to then to - from else to + RING_SIZE - from
  }

  /** The ring's lines from an index up to, not including, another. */
  function Span(lines: seq<Line>, from: nat, to: nat): (s: seq<Line>)
    requires |lines| == RING_SIZE && from < RING_SIZE && to < RING_SIZE
    ensures |s| == Distance(from, to)
    decreases Distance(from, to)
  {
    if from == to then [] else [lines[from]] + Span(lines, Next(from), to)
  }

  /** The index k steps after another; the index of the entry written k entries before the last one. */
  function Ahead(from: nat, k: nat): (i: nat)
    requires from < RING_SIZE && k < RING_SIZE
    ensures i < RING_SIZE
  {
    if from + k < RING_SIZE then from + k else from + k - RING_SIZE
  }

  function Behind(free: nat, k: nat): (i: nat)
    requires free < RING_SIZE && k < RING_SIZE
    ensures i < RING_SIZE
  {
    if free > k then free - 1 - k else free + RING_SIZE - 1 - k
  }

  lemma {:induction false} SpanAt(lines: seq<Line>, from: nat, to: nat, k: nat)
    requires |lines| == RING_SIZE && from < RING_SIZE && to < RING_SIZE && k < Distance(from, to)
    ensures Span(lines, from, to)[k] == lines[Ahead(from, k)]
    decreases k
  {
    if k > 0 {
      SpanAt(lines, Next(from), to, k - 1);
    }
  }

  /** The engine writes a line. */
  function Push(r: Ring, l: Line): (q: Ring)
    requires r.Valid()
    ensures q.Valid()
  {
    Ring(r.lines[r.free := l], Next(r.free))
  }

  function PushAll(r: Ring, ls: seq<Line>): (q: Ring)
    requires r.Valid()
    ensures q.Valid()
    decreases |ls|
  {
    if |ls| == 0 then r else Push(PushAll(r, ls[..|ls| - 1]), ls[|ls| - 1])
  }

  /** After any number of lines the ring ends with the newest of them. */
  lemma {:induction false} RingHoldsNewest(r: Ring, ls: seq<Line>, k: nat)
    requires r.Valid() && k < |ls| && k < RING_SIZE
    ensures var q := PushAll(r, ls);
      q.lines[Behind(q.free, k)] == ls[|ls| - 1 - k]
    decreases |ls|
  {
    if k > 0 {
      RingHoldsNewest(r, ls[..|ls| - 1], k - 1);
    }
  }

  lemma {:induction false} FreeAdvances(r: Ring, ls: seq<Line>)
    requires r.Valid()
    ensures Distance(r.free, PushAll(r, ls).free) == |ls| % RING_SIZE
    decreases |ls|
  {
    if |ls| > 0 {
      FreeAdvances(r, ls[..|ls| - 1]);
    }
  }

  function Last<T>(s: seq<T>, n: nat): (t: seq<T>)
    requires n <= |s|
    ensures |t| == n
  {
    s[|s| - n..]
  }

  /** What a consumer that last saw the ring before the engine wrote ls finds in it: of n lines the newest
      n mod 30, hence all of them exactly when there were fewer than 30. */
  lemma SpanOfWritten(r: Ring, ls: seq<Line>)
    requires r.Valid()
    ensures var q := PushAll(r, ls);
      Span(q.lines, r.free, q.free) == Last(ls, |ls| % RING_SIZE)
    ensures var q := PushAll(r, ls);
      Span(q.lines, r.free, q.free) == ls <==> |ls| < RING_SIZE
  {
    FreeAdvances(r, ls);
    SpanIsNewest(r, ls, |ls| % RING_SIZE);
  }

  lemma SpanIsNewest(r: Ring, ls: seq<Line>, n: nat)
    requires r.Valid() && n <= |ls| && n < RING_SIZE
    requires Distance(r.free, PushAll(r, ls).free) == n
    ensures var q := PushAll(r, ls);
      Span(q.lines, r.free, q.free) == Last(ls, n)
  {
    hide PushAll, Span, Distance;
    var q := PushAll(r, ls);
    var s, t := Span(q.lines, r.free, q.free), Last(ls, n);
    forall k | 0 <= k < n
      ensures s[k] == t[k]
    {
      NewestAt(r, ls, n, k);
    }
  }

  lemma NewestAt(r: Ring, ls: seq<Line>, n: nat, k: nat)
    requires r.Valid() && k < n <= |ls| && n < RING_SIZE
    requires Distance(r.free, PushAll(r, ls).free) == n
    ensures var q := PushAll(r, ls);
      Span(q.lines, r.free, q.free)[k] == ls[|ls| - n + k]
  {
    hide PushAll, Span;
    var q := PushAll(r, ls);
    SameSlot(r.free, q.free, n, k);
    hide Distance, Ahead, Behind;
    SpanAt(q.lines, r.free, q.free, k);
    RingHoldsNewest(r, ls, n - 1 - k);
  }

  lemma SameSlot(from: nat, to: nat, n: nat, k: nat)
    requires from < RING_SIZE && to < RING_SIZE && Distance(from, to) == n && k < n
    ensures Ahead(from, k) == Behind(to, n - 1 - k)
  {
  }

  /** What a consumer of the ring remembers; `log` is all it took since it was seeded or its clock ran back. */
  datatype Memory = Memory(log: seq<Line>, seeded: bool, lastFree: nat, lastGameTime: int)
  {
    predicate Valid() { lastFree < RING_SIZE && (!seeded ==> log == []) }
  }

  /** What a look at the ring makes of the log. */
  function LogAfter(m: Memory, ring: Ring, oldest: nat, gameTime: int): seq<Line>
    requires m.Valid() && ring.Valid() && oldest < RING_SIZE
  {
    if gameTime < m.lastGameTime then [] else m.log + Span(ring.lines, if m.seeded then m.lastFree else oldest, ring.free)
  }

  function Looked(m: Memory, ring: Ring, oldest: nat, gameTime: int): (after: Memory)
    requires m.Valid() && ring.Valid() && oldest < RING_SIZE
    ensures after.Valid()
  {
    Memory(LogAfter(m, ring, oldest, gameTime), true, ring.free, gameTime)
  }

  type RingIndex = i: nat | i < RING_SIZE

  /** One frame: the engine writes lines, and the consumer looks. */
  datatype Turn = Turn(written: seq<Line>, oldest: RingIndex, gameTime: int)

  /** All lines the engine wrote. */
  function Flatten(turns: seq<Turn>): seq<Line> {
    if |turns| == 0 then [] else Flatten(turns[..|turns| - 1]) + turns[|turns| - 1].written
  }

  /** What the consumer remembers after some frames. */
  function Watched(m: Memory, r: Ring, turns: seq<Turn>): (after: Memory)
    requires m.Valid() && r.Valid()
    ensures after.Valid()
    decreases |turns|
  {
    if |turns| == 0 then m
    else
      var n := |turns| - 1;
      Looked(Watched(m, r, turns[..n]), PushAll(r, Flatten(turns)), turns[n].oldest, turns[n].gameTime)
  }

  /** The game time of the last frame. */
  function Clock(start: int, turns: seq<Turn>): int {
    if |turns| == 0 then start else turns[|turns| - 1].gameTime
  }

  /** Fewer than 30 lines a frame, and a clock that does not run back. */
  predicate Steady(start: int, turns: seq<Turn>) {
    |turns| == 0 ||
    var n := |turns| - 1;
    |turns[n].written| < RING_SIZE && Clock(start, turns[..n]) <= turns[n].gameTime && Steady(start, turns[..n])
  }

  lemma {:induction false} PushAllAppends(r: Ring, a: seq<Line>, b: seq<Line>)
    requires r.Valid()
    ensures PushAll(r, a + b) == PushAll(PushAll(r, a), b)
    decreases |b|
  {
    if |b| == 0 {
      assert a + b == a;
    } else {
      var n := |b| - 1;
      PushAllAppends(r, a, b[..n]);
      assert (a + b)[..|a + b| - 1] == a + b[..n];
    }
  }

  lemma LooksSteadily(m: Memory, r: Ring, written: seq<Line>, oldest: nat, gameTime: int)
    requires m.Valid() && r.Valid() && oldest < RING_SIZE
    requires m.seeded && m.lastFree == r.free && m.lastGameTime <= gameTime && |written| < RING_SIZE
    ensures Looked(m, PushAll(r, written), oldest, gameTime)
         == Memory(m.log + written, true, PushAll(r, written).free, gameTime)
  {
    SpanOfWritten(r, written);
  }

  /** From a look that left the consumer abreast of the ring on, with steady frames the log misses and
      repeats nothing. */
  lemma {:induction false} LogIsComplete(m: Memory, r: Ring, turns: seq<Turn>)
    requires m.Valid() && r.Valid() && m.seeded && m.lastFree == r.free && Steady(m.lastGameTime, turns)
    ensures Watched(m, r, turns) == Memory(m.log + Flatten(turns), true, PushAll(r, Flatten(turns)).free, Clock(m.lastGameTime, turns))
    decreases |turns|
  {
    hide PushAll, Looked;
    if |turns| == 0 {
      NothingPushed(r);
    } else {
      var n := |turns| - 1;
      LogIsComplete(m, r, turns[..n]);
      var before := Flatten(turns[..n]);
      PushAllAppends(r, before, turns[n].written);
      hide Flatten, Watched, Steady, Clock;
      LooksSteadily(Memory(m.log + before, true, PushAll(r, before).free, Clock(m.lastGameTime, turns[..n])),
                    PushAll(r, before), turns[n].written, turns[n].oldest, turns[n].gameTime);
      assert m.log + before + turns[n].written == m.log + (before + turns[n].written);
    }
  }

  lemma NothingPushed(r: Ring)
    requires r.Valid()
    ensures PushAll(r, []) == r
  {
  }

  // ---- The log of any run

  /** Of the lines written between two looks the newest n mod 30 of n are found, hence all of fewer than 30. */
  function Taken(written: seq<Line>): (s: seq<Line>)
    ensures |written| < RING_SIZE ==> s == written
  {
    Last(written, |written| % RING_SIZE)
  }

  function AllTaken(turns: seq<Turn>): seq<Line> {
    if |turns| == 0 then [] else AllTaken(turns[..|turns| - 1]) + Taken(turns[|turns| - 1].written)
  }

  /** The last frame whose clock is behind the one before, or behind -1 if it is the first; -1 if there is none. */
  function LastBack(turns: seq<Turn>): (k: int)
    ensures -1 <= k < |turns|
  {
    if |turns| == 0 then -1
    else
      var n := |turns| - 1;
      if turns[n].gameTime < Clock(-1, turns[..n]) then n else LastBack(turns[..n])
  }

  lemma {:induction false} LastBackIsLast(turns: seq<Turn>, i: nat)
    requires i < |turns|
    ensures var back := turns[i].gameTime < if i == 0 then -1 else turns[i - 1].gameTime;
      (i == LastBack(turns) ==> back) && (i > LastBack(turns) ==> !back)
  {
    if i < |turns| - 1 {
      LastBackIsLast(turns[..|turns| - 1], i);
    }
  }

  /** What the log of a consumer since its installation is: what was written after the last frame whose clock had
      run back, or, if there is none, the lines visible in the first frame and what was written after it. */
  function Kept(r: Ring, turns: seq<Turn>): seq<Line>
    requires r.Valid()
  {
    if |turns| == 0 then []
    else if LastBack(turns) >= 0 then AllTaken(turns[LastBack(turns) + 1..])
    else
      var first := PushAll(r, turns[0].written);
      Span(first.lines, turns[0].oldest, first.free) + AllTaken(turns[1..])
  }

  const INSTALLED: Memory := Memory([], false, 0, -1)

  lemma AllTakenNext(turns: seq<Turn>, from: nat)
    requires from < |turns|
    ensures AllTaken(turns[from..]) == AllTaken(turns[..|turns| - 1][from..]) + Taken(turns[|turns| - 1].written)
  {
    hide Taken;
    var s := turns[from..];
    assert s[..|s| - 1] == turns[..|turns| - 1][from..] && s[|s| - 1] == turns[|turns| - 1];
  }

  /** One more frame: what is kept so far and what is found in the ring, unless the clock has run back. */
  lemma KeptNext(r: Ring, turns: seq<Turn>)
    requires r.Valid() && |turns| > 1
    ensures var front, last := turns[..|turns| - 1], turns[|turns| - 1];
      Kept(r, turns) == if last.gameTime < Clock(-1, front) then [] else Kept(r, front) + Taken(last.written)
  {
    hide Span, PushAll, Taken, AllTaken;
    var front, k := turns[..|turns| - 1], LastBack(turns);
    if k == |turns| - 1 {
      NothingTaken(turns[|turns|..]);
    } else if k >= 0 {
      AllTakenNext(turns, k + 1);
    } else {
      AllTakenNext(turns, 1);
      assert front[0] == turns[0];
    }
  }

  lemma NothingTaken(turns: seq<Turn>)
    requires |turns| == 0
    ensures AllTaken(turns) == []
  {
  }

  /** Over any frames, however many lines each brings and however often the clock runs back. */
  lemma {:induction false} LogOfAnyRun(r: Ring, turns: seq<Turn>)
    requires r.Valid()
    ensures Watched(INSTALLED, r, turns)
         == Memory(Kept(r, turns), |turns| > 0, if |turns| == 0 then 0 else PushAll(r, Flatten(turns)).free, Clock(-1, turns))
    decreases |turns|
  {
    hide PushAll, Span, Taken, AllTaken, Kept;
    if |turns| == 0 {
      NothingKept(r, turns);
    } else {
      var n := |turns| - 1;
      var front, last := turns[..n], turns[n];
      LogOfAnyRun(r, front);
      PushAllAppends(r, Flatten(front), last.written);
      if n == 0 {
        FirstKept(r, turns);
      } else {
        KeptNext(r, turns);
        SpanOfWritten(PushAll(r, Flatten(front)), last.written);
        TakenIs(last.written);
      }
    }
  }

  lemma TakenIs(written: seq<Line>)
    ensures Taken(written) == Last(written, |written| % RING_SIZE)
  {
  }

  lemma NothingKept(r: Ring, turns: seq<Turn>)
    requires r.Valid() && |turns| == 0
    ensures Kept(r, turns) == []
  {
  }

  lemma FirstKept(r: Ring, turns: seq<Turn>)
    requires r.Valid() && |turns| == 1
    ensures PushAll(r, Flatten(turns)) == PushAll(r, turns[0].written)
    ensures var first := PushAll(r, turns[0].written);
      Kept(r, turns) == if turns[0].gameTime < -1 then [] else Span(first.lines, turns[0].oldest, first.free)
  {
    hide Span, PushAll;
    NothingFlat(turns[..0]);
    assert [] + turns[0].written == turns[0].written;
    NothingTaken(turns[1..]);
    assert turns[..0] == [];
  }

  lemma NothingFlat(turns: seq<Turn>)
    requires |turns| == 0
    ensures Flatten(turns) == []
  {
  }

  class History {
    const lines: array<Line>
    var count: nat
    var seeded: bool
    var lastFree: nat
    var lastGameTime: int
    /** All lines since the seed or the last reset. */
    ghost var log: seq<Line>

    ghost predicate Valid()
      reads this, lines
    {
      && lines.Length == CAPACITY
      && count == |log|
      && lastFree < RING_SIZE
      && (!seeded ==> log == [])
      && forall k :: 0 <= k < count && count <= k + CAPACITY ==> lines[k % CAPACITY] == log[k]
    }

    ghost function Remembered(): (m: Memory)
      reads this
    {
      Memory(log, seeded, lastFree, lastGameTime)
    }

    constructor (blank: Line)
      ensures Valid() && Remembered() == INSTALLED && fresh(lines)
    {
      lines := new Line[CAPACITY](_ => blank);
      count, seeded, lastFree, lastGameTime, log := 0, false, 0, -1, [];
    }

    /** `HistAppend`. */
    method Append(l: Line)
      requires Valid() && seeded
      modifies this`count, this`log, lines
      ensures Valid() && log == old(log) + [l]
    {
      lines[count % CAPACITY] := l;
      count := count + 1;
      log := log + [l];
    }

    /** The k-th newest line still held, and where. */
    method Entry(k: nat) returns (i: nat, l: Line)
      requires Valid() && k < count && k < CAPACITY
      ensures i < CAPACITY && lines[..][i] == l == log[|log| - 1 - k]
    {
      i := (count - 1 - k) % CAPACITY;
      l := lines[i];
    }

    /** `HistoryConsume`: out-of-range indices are ignored; a clock that runs backwards drops the log
        without seeding it anew; the first call seeds it; any other adds what the ring has gained. */
    method Consume(ring: Ring, oldest: nat, gameTime: int)
      requires Valid() && |ring.lines| == RING_SIZE && oldest < RING_SIZE
      modifies this, lines
      ensures Valid()
      ensures !ring.Valid() ==> Remembered() == old(Remembered())
      ensures ring.Valid() ==> Remembered() == Looked(old(Remembered()), ring, oldest, gameTime)
    {
      if ring.free >= RING_SIZE {
        return;
      }
      if gameTime < lastGameTime {
        count, log := 0, [];
        seeded := true;
        lastFree := ring.free;
      }
      lastGameTime := gameTime;
      var j: nat := lastFree;
      if !seeded {
        seeded := true;
        j := oldest;
      }
      ghost var before := log;
      ghost var start := j;
      while j != ring.free
        invariant Valid() && seeded && j < RING_SIZE && lastGameTime == gameTime
        invariant log + Span(ring.lines, j, ring.free) == before + Span(ring.lines, start, ring.free)
        decreases Distance(j, ring.free)
      {
        Append(ring.lines[j]);
        j := Next(j);
      }
      lastFree := ring.free;
    }

    /** Whatever the consumer remembered: from any look at the ring on, the first one and one that finds the
        clock run back included, as long as the frames are steady its buffer holds the last 512 lines of what
        that look left and of all the engine wrote after it. */
    lemma KeepsNewest(m: Memory, r: Ring, oldest: nat, gameTime: int, turns: seq<Turn>)
      requires Valid() && m.Valid() && r.Valid() && oldest < RING_SIZE && Steady(gameTime, turns)
      requires Remembered() == Watched(Looked(m, r, oldest, gameTime), r, turns)
      ensures var taken := LogAfter(m, r, oldest, gameTime) + Flatten(turns);
        && count == |taken|
        && forall k :: 0 <= k < count && count <= k + CAPACITY ==> lines[k % CAPACITY] == taken[k]
    {
      LogIsComplete(Looked(m, r, oldest, gameTime), r, turns);
    }

    /** A history fed since its installation once in every frame holds in its buffer the last 512 lines of what it
        is to keep. */
    lemma HoldsKept(r: Ring, turns: seq<Turn>)
      requires Valid() && r.Valid() && Remembered() == Watched(INSTALLED, r, turns)
      ensures var kept := Kept(r, turns);
        && count == |kept|
        && forall k :: 0 <= k < count && count <= k + CAPACITY ==> lines[k % CAPACITY] == kept[k]
    {
      LogOfAnyRun(r, turns);
    }
  }
}
