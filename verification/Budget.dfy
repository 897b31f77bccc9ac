/** Wall-time token bucket. */
module Budgeting {
  import opened Words

  datatype Bucket = Bucket(last: U32, credit: U32)

  datatype Grant = Grant(bucket: Bucket, packets: nat)

  function Low32(n: nat): (r: U32)
    ensures r <= n
    ensures n < 0x1_0000_0000 ==> r == n
  {
    n % 0x1_0000_0000
  }

  /** All products and sums are taken modulo 2^32, as on `unsigned`. */
  function Taken(b: Bucket, now: U32, rate: U32, burst: U32): Grant {
    var elapsed := Sub32(now, b.last);
    var credit := Min(Low32(burst * 1000), Low32(b.credit + Low32(Min(elapsed, 1000) * rate)));
    Grant(Bucket(now, credit % 1000), credit / 1000)
  }

  class Budget {
    var last: U32
    var credit: U32

    function Value(): Bucket
      reads this
    {
      Bucket(last, credit)
    }

    constructor ()
      ensures Value() == Bucket(0, 0)
    {
      last, credit := 0, 0;
    }

    method Take(now: U32, packetsPerSecond: U32, burst: U32) returns (packets: nat)
      modifies this
      ensures Grant(Value(), packets) == Taken(old(Value()), now, packetsPerSecond, burst)
    {
      var elapsed := Sub32(now, last);
      last := now;
      var topped := Min(Low32(burst * 1000), Low32(credit + Low32(Min(elapsed, 1000) * packetsPerSecond)));
      packets := topped / 1000;
      credit := topped - packets * 1000;
    }
  }

  // ---- Runs of calls at wall times (milliseconds, unbounded; the clock shows them modulo 2^32)

  function Clock(t: nat): U32 {
    t % 0x1_0000_0000
  }

  ghost predicate Advancing(from: nat, times: seq<nat>) {
    && (times != [] ==> from <= times[0])
    && forall i :: 0 < i < |times| ==> times[i - 1] <= times[i]
  }

  function Final(b: Bucket, times: seq<nat>, rate: U32, burst: U32): Bucket
    decreases |times|
  {
    if |times| == 0 then b else Final(Taken(b, Clock(times[0]), rate, burst).bucket, times[1..], rate, burst)
  }

  function Granted(b: Bucket, times: seq<nat>, rate: U32, burst: U32): nat
    decreases |times|
  {
    if |times| == 0 then 0
    else
      var g := Taken(b, Clock(times[0]), rate, burst);
      g.packets + Granted(g.bucket, times[1..], rate, burst)
  }

  function End(from: nat, times: seq<nat>): nat {
    if |times| == 0 then from else times[|times| - 1]
  }

  lemma ElapsedIsAtMostReal(from: nat, t: nat)
    requires from <= t
    ensures Sub32(Clock(t), Clock(from)) == (t - from) % 0x1_0000_0000 <= t - from
  {
    var d := (t - from) % 0x1_0000_0000;
    var qt, qf, qd := t / 0x1_0000_0000, from / 0x1_0000_0000, (t - from) / 0x1_0000_0000;
    assert t - from == qd * 0x1_0000_0000 + d == (qt - qf) * 0x1_0000_0000 + (Clock(t) - Clock(from));
  }

  lemma Scale(a: nat, b: nat, rate: nat)
    requires a <= b
    ensures a * rate <= b * rate
  {
  }

  lemma Distribute(a: nat, c: nat, rate: nat)
    ensures a * rate + c * rate == (a + c) * rate
  {
  }

  /** One call: no grant exceeds the burst, leftover credit stays below one packet, and what is granted
      plus what is kept was earned. */
  lemma OneGrant(b: Bucket, from: nat, t: nat, rate: U32, burst: U32)
    requires from <= t && b.last == Clock(from)
    ensures var g := Taken(b, Clock(t), rate, burst);
      && g.packets <= burst && g.bucket.credit < 1000 && g.bucket.last == Clock(t)
      && g.packets * 1000 + g.bucket.credit <= b.credit + (t - from) * rate
  {
    ElapsedIsAtMostReal(from, t);
    Scale(Min(Sub32(Clock(t), Clock(from)), 1000), t - from, rate);
  }

  /** Over any window the bucket conserves: grants and remaining credit never exceed initial credit and
      what the elapsed time earned.  A window may start after any call, whatever happened before. */
  lemma {:induction false} WindowConserves(b: Bucket, from: nat, times: seq<nat>, rate: U32, burst: U32)
    requires b.last == Clock(from) && Advancing(from, times)
    ensures from <= End(from, times)
    ensures Granted(b, times, rate, burst) * 1000 + Final(b, times, rate, burst).credit
         <= b.credit + (End(from, times) - from) * rate
    decreases |times|
  {
    if |times| > 0 {
      var g := Taken(b, Clock(times[0]), rate, burst);
      OneGrant(b, from, times[0], rate, burst);
      WindowConserves(g.bucket, times[0], times[1..], rate, burst);
      EndNext(from, times);
      hide Taken, Clock, End, Advancing;
      var a, c := times[0] - from, End(from, times) - times[0];
      Distribute(a, c, rate);
    }
  }

  lemma EndNext(from: nat, times: seq<nat>)
    requires |times| > 0
    ensures End(from, times) == End(times[0], times[1..])
  {
  }

  /** The packets granted in a window of T milliseconds that starts with less than one packet of credit,
      as every window after a call does, number at most (999 + rate * T) / 1000. */
  lemma WindowBound(b: Bucket, from: nat, times: seq<nat>, rate: U32, burst: U32)
    requires b.last == Clock(from) && b.credit < 1000 && Advancing(from, times)
    ensures from <= End(from, times)
    ensures Granted(b, times, rate, burst) <= (999 + rate * (End(from, times) - from)) / 1000
  {
    WindowConserves(b, from, times, rate, burst);
    var earned := rate * (End(from, times) - from);
    assert Granted(b, times, rate, burst) * 1000 <= 999 + earned;
  }

  lemma OneGrantExact(b: Bucket, from: nat, t: nat, rate: U32, burst: U32, gap: nat)
    requires b.last == Clock(from) && b.credit < 1000
    requires from <= t && t - from <= gap <= 1000 && 999 + gap * rate <= burst * 1000 < 0x1_0000_0000
    ensures var g := Taken(b, Clock(t), rate, burst);
      g.packets * 1000 + g.bucket.credit == b.credit + (t - from) * rate
  {
    var a := t - from;
    ElapsedIsAtMostReal(from, t);
    Scale(a, gap, rate);
    assert Min(Sub32(Clock(t), Clock(from)), 1000) == a;
    assert Low32(b.credit + Low32(a * rate)) == b.credit + a * rate;
  }

  ghost predicate Dense(from: nat, times: seq<nat>, gap: nat) {
    && (times != [] ==> times[0] <= from + gap)
    && forall i :: 0 < i < |times| ==> times[i] <= times[i - 1] + gap
  }

  /** While calls are dense enough that neither the one-second cap nor the burst cap applies, nothing
      earned is lost: the conservation is exact. */
  lemma Chain(granted: nat, kept: nat, packets: nat, credit: nat, start: nat, a: nat, c: nat, rate: nat)
    requires packets * 1000 + credit == start + a * rate
    requires granted * 1000 + kept == credit + c * rate
    ensures (packets + granted) * 1000 + kept == start + (a + c) * rate
  {
    Distribute(a, c, rate);
  }

  lemma {:induction false} NothingLost(b: Bucket, from: nat, times: seq<nat>, rate: U32, burst: U32, gap: nat)
    requires b.last == Clock(from) && b.credit < 1000 && Advancing(from, times)
    requires gap <= 1000 && 999 + gap * rate <= burst * 1000 < 0x1_0000_0000
    requires Dense(from, times, gap)
    ensures from <= End(from, times)
    ensures Granted(b, times, rate, burst) * 1000 + Final(b, times, rate, burst).credit
         == b.credit + (End(from, times) - from) * rate
    decreases |times|
  {
    hide Taken;
    if times != [] {
      var first, rest := times[0], times[1..];
      var g := Taken(b, Clock(first), rate, burst);
      OneGrant(b, from, first, rate, burst);
      OneGrantExact(b, from, first, rate, burst, gap);
      NothingLost(g.bucket, first, rest, rate, burst, gap);
      assert End(first, rest) == End(from, times);
      Chain(Granted(g.bucket, rest, rate, burst), Final(g.bucket, rest, rate, burst).credit,
            g.packets, g.bucket.credit, b.credit, first - from, End(first, rest) - first, rate);
    }
  }

  /** After a pause that earns the burst or more, the grant is the whole burst and nothing is saved beyond it; a
      pause longer than a second earns no more than a second does. */
  lemma PauseGrantsBurst(b: Bucket, now: U32, rate: U32, burst: U32)
    requires burst * 1000 < 0x1_0000_0000 && b.credit + 1000 * rate < 0x1_0000_0000
    ensures var g := Taken(b, now, rate, burst);
      if b.credit + Min(Sub32(now, b.last), 1000) * rate >= burst * 1000
      then g.packets == burst && g.bucket.credit == 0
      else g.packets * 1000 + g.bucket.credit == b.credit + Min(Sub32(now, b.last), 1000) * rate
  {
    Scale(Min(Sub32(now, b.last), 1000), 1000, rate);
  }
}
