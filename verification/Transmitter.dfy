/** The sending side: which transaction to send, and how it is cut into chunks. */
module Transmitting {
  import opened Words
  import opened Records
  import opened WireFormat
  import opened Diff

  /** What a sequence number stands for. */
  datatype Transaction = Transaction(kind: U8, base: U32, operations: seq<WireRecord>, target: seq<Record>)

  datatype Tx = Tx(
    acknowledged: seq<Record>, target: seq<Record>, operations: seq<WireRecord>,
    acknowledgedSequence: U32, sequence: U32, base: U32,
    nextChunk: nat, active: bool, kind: U8)

  const NEW_TX: Tx := Tx([], [], [], 0, 0, 0, 0, false, FULL)

  function Choose(acknowledged: seq<Record>, base: U32, current: seq<Record>): Transaction {
    var difference := Difference(acknowledged, current);
    if base != 0 && |difference| < |current| then Transaction(DELTA, base, difference, current)
    else Transaction(FULL, 0, WireAll(current), current)
  }

  /** A transaction is due: none is in flight, and the peer is not known to hold `current`. */
  predicate Starts(tx: Tx, current: seq<Record>) {
    !tx.active && (tx.acknowledgedSequence == 0 || current != tx.acknowledged)
  }

  function Prepared(tx: Tx, current: seq<Record>, seqno: U32): Tx {
    if !Starts(tx, current) then tx
    else
      var t := Choose(tx.acknowledged, tx.acknowledgedSequence, current);
      tx.(target := current, operations := t.operations, base := t.base, kind := t.kind,
          sequence := seqno, nextChunk := 0, active := true)
  }

  function Acknowledged(tx: Tx, ack: U32): Tx {
    if tx.active && ack == tx.sequence then
      tx.(acknowledged := tx.target, target := tx.acknowledged,
          acknowledgedSequence := tx.sequence, active := false)
    else if ack == 0 && (!tx.active || tx.kind == DELTA) then
      tx.(acknowledgedSequence := 0, active := false)
    else tx
  }

  function InFlight(tx: Tx): Transaction {
    Transaction(tx.kind, tx.base, tx.operations, tx.target)
  }

  function ChunkCount(operations: seq<WireRecord>): (n: nat)
    ensures n > 0
  {
    if operations == [] then 1 else (|operations| + RECORDS_PER_PACKET - 1) / RECORDS_PER_PACKET
  }

  /** The operations that chunk `index` carries. */
  function Slice(operations: seq<WireRecord>, index: nat): (s: seq<WireRecord>)
    requires index < ChunkCount(operations)
    ensures |s| <= RECORDS_PER_PACKET
  {
    var first := index * RECORDS_PER_PACKET;
    operations[first..Min(first + RECORDS_PER_PACKET, |operations|)]
  }

  function Padded(s: seq<WireRecord>): (records: seq<WireRecord>)
    requires |s| <= RECORDS_PER_PACKET
    ensures |records| == RECORDS_PER_PACKET
  {
    s + seq(RECORDS_PER_PACKET - |s|, i => BLANK)
  }

  /** `static_cast<std::uint16_t>`. */
  function Low16(n: nat): (r: U16)
    ensures n < 0x1_0000 ==> r == n
  {
    n % 0x1_0000
  }

  /** Index and count are truncated to 16 bits, as in the packet header. */
  function ChunkPacket(t: Transaction, seqno: U32, id: U8, index: nat): Packet
    requires index < ChunkCount(t.operations)
  {
    var s := Slice(t.operations, index);
    MakePacket(id, t.kind).(
      sequence := seqno, base := t.base,
      chunkIndex := Low16(index), chunkCount := Low16(ChunkCount(t.operations)),
      recordCount := |s|, records := Padded(s))
  }

  /** `Transmitter` of the source: the same operations, updating fields in place. */
  class Transmitter {
    var acknowledged: seq<Record>
    var target: seq<Record>
    var operations: seq<WireRecord>
    var acknowledgedSequence: U32
    var sequence: U32
    var base: U32
    var nextChunk: nat
    var active: bool
    var kind: U8

    function Value(): Tx
      reads this
    {
      Tx(acknowledged, target, operations, acknowledgedSequence, sequence, base, nextChunk, active, kind)
    }

    constructor ()
      ensures Value() == NEW_TX
    {
      acknowledged, target, operations := [], [], [];
      acknowledgedSequence, sequence, base := 0, 0, 0;
      nextChunk, active, kind := 0, false, FULL;
    }

    method Acknowledge(ack: U32)
      modifies this
      ensures Value() == Acknowledged(old(Value()), ack)
    {
      if active && ack == sequence {
        acknowledged, target := target, acknowledged;
        acknowledgedSequence := sequence;
        active := false;
      } else if ack == 0 && (!active || kind == DELTA) {
        acknowledgedSequence := 0;
        active := false;
      }
    }

    method Prepare(current: seq<Record>, seqno: U32) returns (started: bool)
      modifies this
      ensures started <==> Starts(old(Value()), current)
      ensures Value() == Prepared(old(Value()), current, seqno)
    {
      if active {
        return false;
      }
      if acknowledgedSequence != 0 {
        var same := Same(current, acknowledged);
        if same {
          return false;
        }
      }
      target := current;
      operations := [];
      base := acknowledgedSequence;
      kind := DELTA;
      if base != 0 {
        operations := Merge(acknowledged, current);
      }
      if base == 0 || |operations| >= |current| {
        kind, base := FULL, 0;
        operations := [];
        for i := 0 to |current|
          invariant operations == WireAll(current)[..i]
          modifies this`operations
        {
          operations := operations + [Wire(current[i])];
        }
      }
      sequence, nextChunk, active := seqno, 0, true;
      return true;
    }

    /** The two-index merge loop of `Prepare`. */
    static method Merge(held: seq<Record>, current: seq<Record>) returns (ops: seq<WireRecord>)
      ensures ops == Difference(held, current)
    {
      var a, b := 0, 0;
      ops := [];
      RemainingNothing(held, current);
      hide Remaining, Less, Wire;
      while a < |held| || b < |current|
        invariant a <= |held| && b <= |current|
        invariant ops + Remaining(held, a, current, b) == Remaining(held, 0, current, 0)
        decreases |held| - a + |current| - b
      {
        RemainingNext(held, a, current, b);
        if b == |current| || (a < |held| && Less(held[a], current[b])) {
          ops := ops + [Wire(held[a], true)];
          a := a + 1;
        } else if a == |held| || Less(current[b], held[a]) {
          ops := ops + [Wire(current[b])];
          b := b + 1;
        } else {
          a, b := a + 1, b + 1;
        }
      }
    }

    /** Fill one packet with the chunk's operations. */
    method Chunk(id: U8, index: nat) returns (p: Packet)
      requires index < ChunkCount(operations)
      ensures p == ChunkPacket(InFlight(Value()), sequence, id, index)
    {
      var raw := MakePacket(id, kind);
      raw := raw.(sequence := sequence, base := base, chunkIndex := Low16(index), chunkCount := Low16(ChunkCount(operations)));
      var first := index * RECORDS_PER_PACKET;
      var records, count := raw.records, 0;
      var i := first;
      while i < |operations| && i < first + RECORDS_PER_PACKET
        invariant first <= i <= first + RECORDS_PER_PACKET
        invariant i <= |operations|
        invariant count == i - first && |records| == RECORDS_PER_PACKET
        invariant records == operations[first..i] + seq(RECORDS_PER_PACKET - count, k => BLANK)
      {
        records := records[count := operations[i]];
        count := count + 1;
        i := i + 1;
      }
      assert operations[first..i] == Slice(operations, index);
      p := raw.(recordCount := count, records := records);
    }
  }

  /** What the merge loop still has to write at positions a and b. */
  function Remaining(held: seq<Record>, a: nat, current: seq<Record>, b: nat): seq<WireRecord>
    requires a <= |held| && b <= |current|
  {
    Difference(held[a..], current[b..])
  }

  lemma RemainingNothing(held: seq<Record>, current: seq<Record>)
    ensures Remaining(held, |held|, current, |current|) == [] && Remaining(held, 0, current, 0) == Difference(held, current)
  {
    assert held[0..] == held && current[0..] == current;
  }

  lemma RemainingNext(held: seq<Record>, a: nat, current: seq<Record>, b: nat)
    requires a <= |held| && b <= |current| && (a < |held| || b < |current|)
    ensures Remaining(held, a, current, b) ==
      if b == |current| || (a < |held| && Less(held[a], current[b])) then
        [Wire(held[a], true)] + Remaining(held, a + 1, current, b)
      else if a == |held| || Less(current[b], held[a]) then
        [Wire(current[b])] + Remaining(held, a, current, b + 1)
      else Remaining(held, a + 1, current, b + 1)
  {
  }

  // ---- What the choice means

  /** A full transaction is chosen exactly when there is no base, or the records that differ are
      at least as many as the records of the new snapshot. */
  lemma FullExactlyWhenNotShorter(acknowledged: seq<Record>, base: U32, current: seq<Record>)
    requires Canonical(acknowledged) && Canonical(current)
    ensures var t := Choose(acknowledged, base, current);
      && (t.kind == FULL <==>
          base == 0 || |Elements(acknowledged) - Elements(current)| + |Elements(current) - Elements(acknowledged)|
                       >= |Elements(current)|)
      && (t.kind == FULL || t.kind == DELTA)
      && |t.operations| <= |current|
  {
    DifferenceSize(acknowledged, current);
    CanonicalSize(current);
  }

  /** The base snapshot a transaction is to be applied to. */
  function Ground(t: Transaction, held: seq<Record>): seq<Record> {
    if t.kind == FULL then [] else held
  }

  /** Whichever kind is chosen, applying it where it may be applied yields the new snapshot. */
  lemma TransactionMeansTarget(held: seq<Record>, base: U32, current: seq<Record>)
    requires Snapshot(held) && Snapshot(current)
    ensures var t := Choose(held, base, current);
      Canonicalized(ApplyAll(Ground(t, held), t.operations)) == current
  {
    DifferenceThenApply(held, current);
    FullThenApply(current);
  }

  /** The chunks, in index order, spell out the operations; none is empty unless it is alone, all
      but the last are full, and there are at most 240. */
  lemma ChunksPartition(operations: seq<WireRecord>, index: nat)
    requires |operations| <= MAX_RECORDS && index < ChunkCount(operations)
    ensures ChunkCount(operations) <= MAX_CHUNKS
    ensures index + 1 < ChunkCount(operations) ==> |Slice(operations, index)| == RECORDS_PER_PACKET
    ensures |Slice(operations, index)| == 0 <==> operations == []
    ensures index + 1 == ChunkCount(operations) ==>
      index * RECORDS_PER_PACKET + |Slice(operations, index)| == |operations|
    ensures Slices(operations, ChunkCount(operations)) == operations
  {
    SlicesSpell(operations, ChunkCount(operations));
  }

  /** The first n chunks, one after the other. */
  function Slices(operations: seq<WireRecord>, n: nat): seq<WireRecord>
    requires n <= ChunkCount(operations)
  {
    if n == 0 then [] else Slices(operations, n - 1) + Slice(operations, n - 1)
  }

  lemma {:induction false} SlicesSpell(operations: seq<WireRecord>, n: nat)
    requires n <= ChunkCount(operations)
    ensures Slices(operations, n) == operations[..Min(n * RECORDS_PER_PACKET, |operations|)]
  {
    if n > 0 {
      SlicesSpell(operations, n - 1);
    }
  }
}
