/** The receiving side: reassembly, base check, commit. */
module Receiving {
  import opened Words
  import opened Records
  import opened WireFormat
  import opened Diff

  datatype Rx = Rx(
    records: seq<Record>, pending: seq<WireRecord>, received: seq<bool>,
    sequence: U32, pendingSequence: U32, pendingBase: U32,
    pendingSize: nat, pendingKind: U8, needFull: bool)

  /** A receiver whose buffers agree. */
  type SizedRx = rx: Rx | Sized(rx) witness NEW_RX

  const NEW_RX: Rx := Rx([], [], [], 0, 0, 0, 0, 0, false)

  datatype Accepted = Accepted(rx: Rx, ack: bool)

  function Acknowledgement(rx: Rx): U32 {
    if rx.needFull then 0 else rx.sequence
  }

  /** The structural checks on a packet, whatever the receiver's state. */
  predicate WellFormed(p: Packet) {
    && (p.kind == FULL || p.kind == DELTA)
    && p.sequence != 0
    && 0 < p.chunkCount <= MAX_CHUNKS
    && p.chunkIndex < p.chunkCount
    && p.recordCount <= RECORDS_PER_PACKET
    && (p.chunkIndex + 1 < p.chunkCount ==> p.recordCount == RECORDS_PER_PACKET)
    && (p.recordCount == 0 ==> p.chunkCount == 1)
    && (p.kind == FULL ==> p.base == 0)
    && forall i :: 0 <= i < p.recordCount ==>
         ValidWire(p.records[i]) && (p.kind == FULL ==> !HasRemove(p.records[i].rotation))
  }

  /** Buffer sizes agree, so that every chunk index is in bounds. */
  predicate Sized(rx: Rx) {
    && |rx.pending| == |rx.received| * RECORDS_PER_PACKET
    && (rx.pendingSequence != 0 ==> rx.pendingSize <= |rx.pending|)
  }

  function Blanks(n: nat): (s: seq<WireRecord>)
    ensures |s| == n && forall i :: 0 <= i < n ==> s[i] == BLANK
  {
    seq(n, i => BLANK)
  }

  function NoneReceived(n: nat): (s: seq<bool>)
    ensures |s| == n && forall i :: 0 <= i < n ==> !s[i]
  {
    seq(n, i => false)
  }

  /** A packet of a transaction other than the pending one restarts reassembly. */
  function Begin(rx: Rx, p: Packet): Rx {
    if rx.pendingSequence == p.sequence then rx
    else rx.(pendingSequence := p.sequence, pendingBase := p.base, pendingKind := p.kind,
             pending := Blanks(p.chunkCount * RECORDS_PER_PACKET),
             received := NoneReceived(p.chunkCount), pendingSize := 0)
  }

  predicate Matches(rx: Rx, p: Packet) {
    |rx.received| == p.chunkCount && rx.pendingKind == p.kind && rx.pendingBase == p.base
  }

  function Overwrite(s: seq<WireRecord>, at: nat, chunk: seq<WireRecord>): (t: seq<WireRecord>)
    requires at + |chunk| <= |s|
    ensures |t| == |s|
    ensures forall i :: 0 <= i < |s| ==> t[i] == if at <= i < at + |chunk| then chunk[i - at] else s[i]
  {
    s[..at] + chunk + s[at + |chunk|..]
  }

  /** Keep the first copy of a chunk. */
  function Store(rx: Rx, p: Packet): (r: Rx)
    requires WellFormed(p) && Sized(rx) && |rx.received| == p.chunkCount
    requires rx.pendingSequence == p.sequence
    ensures Sized(r)
  {
    if rx.received[p.chunkIndex] then rx
    else
      var at := p.chunkIndex * RECORDS_PER_PACKET;
      rx.(pending := Overwrite(rx.pending, at, p.records[..p.recordCount]),
          received := rx.received[p.chunkIndex := true],
          pendingSize := if p.chunkIndex + 1 == p.chunkCount then at + p.recordCount else rx.pendingSize)
  }

  function CommitPending(rx: Rx): (r: Accepted)
    requires rx.pendingSize <= |rx.pending|
  {
    var ground := if rx.pendingKind == FULL then [] else rx.records;
    var next := Canonicalized(ApplyAll(ground, rx.pending[..rx.pendingSize]));
    if |next| > MAX_RECORDS then Accepted(rx.(needFull := true), true)
    else Accepted(rx.(records := next, sequence := rx.pendingSequence, needFull := false,
                      pendingSequence := 0, pending := [], received := []), true)
  }

  /** A packet that passed all checks: reassemble, and commit once no chunk is missing. */
  function IngestPacket(rx: Rx, p: Packet): (r: Accepted)
    requires Sized(rx) && WellFormed(p)
    ensures Sized(r.rx)
  {
    var begun := Begin(rx, p);
    if !Matches(begun, p) then Accepted(begun, false)
    else
      var stored := Store(begun, p);
      if false in stored.received then Accepted(stored, false) else CommitPending(stored)
  }

  function AcceptPacket(rx: Rx, p: Packet): (r: Accepted)
    requires Sized(rx)
    ensures Sized(r.rx)
  {
    if !WellFormed(p) then Accepted(rx, false)
    else if rx.sequence != 0 && !Newer(p.sequence, rx.sequence) then Accepted(rx, p.sequence == rx.sequence)
    else if p.kind == DELTA && (rx.needFull || rx.sequence == 0 || p.base != rx.sequence) then
      Accepted(rx.(needFull := true), true)
    else if rx.pendingSequence != 0 && p.sequence != rx.pendingSequence && !Newer(p.sequence, rx.pendingSequence) then
      Accepted(rx, false)
    else IngestPacket(rx, p)
  }

  /** `Receiver` of the source: the same decision, updating fields in place. */
  class Receiver {
    var records: seq<Record>
    var pending: seq<WireRecord>
    var received: seq<bool>
    var sequence: U32
    var pendingSequence: U32
    var pendingBase: U32
    var pendingSize: nat
    var pendingKind: U8
    var needFull: bool

    function Value(): Rx
      reads this
    {
      Rx(records, pending, received, sequence, pendingSequence, pendingBase, pendingSize, pendingKind, needFull)
    }

    constructor ()
      ensures Value() == NEW_RX
    {
      records, pending, received := [], [], [];
      sequence, pendingSequence, pendingBase := 0, 0, 0;
      pendingSize, pendingKind, needFull := 0, 0, false;
    }

    static method Check(p: Packet) returns (ok: bool)
      ensures ok <==> WellFormed(p)
    {
      if (p.kind != FULL && p.kind != DELTA) || p.sequence == 0
        || p.chunkCount == 0 || p.chunkCount > MAX_CHUNKS || p.chunkIndex >= p.chunkCount
        || p.recordCount > RECORDS_PER_PACKET
        || (p.chunkIndex + 1 < p.chunkCount && p.recordCount != RECORDS_PER_PACKET)
        || (p.recordCount == 0 && p.chunkCount != 1)
        || (p.kind == FULL && p.base != 0)
      {
        return false;
      }
      for i := 0 to p.recordCount
        invariant forall k :: 0 <= k < i ==>
          ValidWire(p.records[k]) && (p.kind == FULL ==> !HasRemove(p.records[k].rotation))
      {
        var w := p.records[i];
        if w.buildUnitId == 0 || HasStrayBits(w.rotation) || (p.kind == FULL && HasRemove(w.rotation)) {
          return false;
        }
      }
      return true;
    }

    /** True means a complete transaction (or a duplicate) is to be acknowledged. */
    method Accept(p: Packet) returns (ack: bool)
      requires Sized(Value())
      modifies this
      ensures Sized(Value())
      ensures Accepted(Value(), ack) == AcceptPacket(old(Value()), p)
    {
      var ok := Check(p);
      if !ok {
        return false;
      }
      if sequence != 0 && !Newer(p.sequence, sequence) {
        return p.sequence == sequence;
      }
      if p.kind == DELTA && (needFull || sequence == 0 || p.base != sequence) {
        needFull := true;
        return true;
      }
      if pendingSequence != 0 && p.sequence != pendingSequence && !Newer(p.sequence, pendingSequence) {
        return false;
      }
      ack := Ingest(p);
    }

    /** The second half of `Accept`. */
    method Ingest(p: Packet) returns (ack: bool)
      requires Sized(Value()) && WellFormed(p)
      modifies this
      ensures Sized(Value())
      ensures Accepted(Value(), ack) == IngestPacket(old(Value()), p)
    {
      if pendingSequence != p.sequence {
        pendingSequence, pendingBase, pendingKind := p.sequence, p.base, p.kind;
        pending := Blanks(p.chunkCount * RECORDS_PER_PACKET);
        received, pendingSize := NoneReceived(p.chunkCount), 0;
      }
      if |received| != p.chunkCount || pendingKind != p.kind || pendingBase != p.base {
        return false;
      }
      StoreChunk(p);
      if false in received {
        return false;
      }
      ack := Commit(p);
    }

    /** Keep the first copy of a chunk. */
    method StoreChunk(p: Packet)
      requires Sized(Value()) && WellFormed(p) && |received| == p.chunkCount && pendingSequence == p.sequence
      modifies this
      ensures Value() == Store(old(Value()), p)
    {
      if !received[p.chunkIndex] {
        StoreRecords(p);
        received := received[p.chunkIndex := true];
        if p.chunkIndex + 1 == p.chunkCount {
          pendingSize := p.chunkIndex * RECORDS_PER_PACKET + p.recordCount;
        }
      }
    }

    /** Replay the complete transaction on the held snapshot. */
    method Commit(p: Packet) returns (ack: bool)
      requires Sized(Value()) && pendingSize <= |pending|
      requires p.kind == pendingKind && p.sequence == pendingSequence
      modifies this
      ensures Accepted(Value(), ack) == CommitPending(old(Value()))
    {
      var next := Replay(if p.kind == FULL then [] else records, pending[..pendingSize]);
      next := Canonicalize(next);
      if |next| > MAX_RECORDS {
        needFull := true;
        return true;
      }
      records, sequence, needFull := next, p.sequence, false;
      pendingSequence, pending, received := 0, [], [];
      return true;
    }

    method StoreRecords(p: Packet)
      requires p.chunkIndex * RECORDS_PER_PACKET + p.recordCount <= |pending|
      requires p.recordCount <= RECORDS_PER_PACKET
      modifies this`pending
      ensures pending
           == Overwrite(old(pending), p.chunkIndex * RECORDS_PER_PACKET, p.records[..p.recordCount])
    {
      var at := p.chunkIndex * RECORDS_PER_PACKET;
      for i := 0 to p.recordCount
        invariant |pending| == |old(pending)|
        invariant pending == Overwrite(old(pending), at, p.records[..i])
      {
        pending := pending[at + i := p.records[i]];
      }
    }

    /** The remove/add loop. */
    static method Replay(ground: seq<Record>, ops: seq<WireRecord>) returns (next: seq<Record>)
      ensures next == ApplyAll(ground, ops)
    {
      next := ground;
      for i := 0 to |ops|
        invariant ApplyAll(next, ops[i..]) == ApplyAll(ground, ops)
      {
        var r := Unwire(ops[i]);
        assert ops[i..][1..] == ops[i + 1..];
        if HasRemove(ops[i].rotation) {
          next := Without(next, r);
        } else {
          next := next + [r];
        }
      }
    }
  }

  // ---- The receiver against arbitrary packets

  /** The operations of a received chunk that will be replayed are valid encodings. */
  ghost predicate ChunkStored(rx: Rx, c: nat)
    requires Sized(rx) && c < |rx.received| && rx.pendingSequence != 0
  {
    if c + 1 < |rx.received| then
      forall j :: c * RECORDS_PER_PACKET <= j < (c + 1) * RECORDS_PER_PACKET ==> ValidWire(rx.pending[j])
    else
      && c * RECORDS_PER_PACKET <= rx.pendingSize
      && forall j :: c * RECORDS_PER_PACKET <= j < rx.pendingSize ==> ValidWire(rx.pending[j])
  }

  /** What every receiver satisfies, whatever it was sent. */
  ghost predicate Invariant(rx: Rx) {
    && Sized(rx)
    && Snapshot(rx.records)
    && (rx.sequence == 0 ==> rx.records == [])
    && (rx.pendingSequence == 0 ==> rx.pending == [] && rx.received == [])
    && (rx.pendingSequence != 0 ==>
        && 0 < |rx.received| <= MAX_CHUNKS
        && (rx.pendingKind == FULL || rx.pendingKind == DELTA)
        && (rx.pendingKind == FULL ==> rx.pendingBase == 0)
        && (rx.pendingKind == DELTA ==> rx.pendingBase == rx.sequence != 0)
        && (rx.sequence != 0 ==> Newer(rx.pendingSequence, rx.sequence))
        && forall c :: 0 <= c < |rx.received| && rx.received[c] ==> ChunkStored(rx, c))
  }

  lemma InitialInvariant()
    ensures Invariant(NEW_RX)
  {
  }

  lemma WithoutSubset(s: seq<Record>, r: Record)
    requires AllValid(s)
    ensures AllValid(Without(s, r))
  {
    assert forall v :: v in Without(s, r) ==> v in Elements(Without(s, r));
  }

  lemma {:induction false} ApplyAllValid(s: seq<Record>, ops: seq<WireRecord>)
    requires AllValid(s) && forall w :: w in ops ==> ValidWire(w)
    ensures AllValid(ApplyAll(s, ops))
    decreases |ops|
  {
    if ops != [] {
      WithoutSubset(s, Unwire(ops[0]));
      assert ops[0] in ops;
      ApplyAllValid(ApplyOne(s, ops[0]), ops[1..]);
    }
  }

  lemma BeginInvariant(rx: Rx, p: Packet)
    requires Invariant(rx) && Admitted(rx, p)
    ensures Invariant(Begin(rx, p))
  {
  }

  lemma StoreInvariant(rx: Rx, p: Packet)
    requires Invariant(rx) && WellFormed(p) && rx.pendingSequence == p.sequence && Matches(rx, p)
    ensures Invariant(Store(rx, p))
  {
    var r := Store(rx, p);
    forall c | 0 <= c < |r.received| && r.received[c] ensures ChunkStored(r, c) {
      if c != p.chunkIndex {
        assert rx.received[c] && ChunkStored(rx, c);
      }
    }
  }

  lemma AllOperationsValid(rx: Rx)
    requires Invariant(rx) && rx.pendingSequence != 0 && false !in rx.received
    ensures forall w :: w in rx.pending[..rx.pendingSize] ==> ValidWire(w)
  {
    forall j | 0 <= j < rx.pendingSize ensures ValidWire(rx.pending[j]) {
      var c := j / RECORDS_PER_PACKET;
      assert rx.received[c] && ChunkStored(rx, c);
    }
  }

  lemma CommitInvariant(rx: Rx)
    requires Invariant(rx) && rx.pendingSequence != 0 && false !in rx.received
    ensures Invariant(CommitPending(rx).rx)
    ensures CommitPending(rx).rx.sequence == rx.sequence ==> CommitPending(rx).rx.records == rx.records
  {
    var ground := if rx.pendingKind == FULL then [] else rx.records;
    var ops := rx.pending[..rx.pendingSize];
    AllOperationsValid(rx);
    ApplyAllValid(ground, ops);
    var next := Canonicalized(ApplyAll(ground, ops));
    assert forall v :: v in next ==> v in Elements(next);
  }

  /** The packet reaches reassembly. */
  predicate Admitted(rx: Rx, p: Packet) {
    && WellFormed(p)
    && (rx.sequence != 0 ==> Newer(p.sequence, rx.sequence))
    && (p.kind == DELTA ==> !rx.needFull && rx.sequence != 0 && p.base == rx.sequence)
    && (rx.pendingSequence != 0 && p.sequence != rx.pendingSequence ==> Newer(p.sequence, rx.pendingSequence))
  }

  lemma IngestInvariant(rx: Rx, p: Packet)
    requires Invariant(rx) && Admitted(rx, p)
    ensures var r := IngestPacket(rx, p).rx;
      && Invariant(r)
      && (r.sequence != rx.sequence ==> r.sequence == p.sequence)
      && (r.sequence == rx.sequence ==> r.records == rx.records)
      && (rx.needFull && !r.needFull ==> p.kind == FULL && r.sequence == p.sequence)
  {
    var begun := Begin(rx, p);
    BeginInvariant(rx, p);
    if Matches(begun, p) {
      StoreInvariant(begun, p);
      var stored := Store(begun, p);
      if false !in stored.received {
        CommitInvariant(stored);
      }
    }
  }

  /** Whatever packet arrives, however malformed, the invariant stands; the sequence only moves to a
      newer one, the records only with it, and only a full commit clears `needFull`. */
  lemma AcceptInvariant(rx: Rx, p: Packet)
    requires Invariant(rx)
    ensures var r := AcceptPacket(rx, p).rx;
      && Invariant(r)
      && (r.sequence != rx.sequence ==> r.sequence == p.sequence && (rx.sequence != 0 ==> Newer(r.sequence, rx.sequence)))
      && (r.sequence == rx.sequence ==> r.records == rx.records)
      && (rx.needFull && !r.needFull ==> p.kind == FULL && r.sequence == p.sequence)
  {
    if Admitted(rx, p) {
      IngestInvariant(rx, p);
    }
  }

  function Deliver(rx: Rx, packets: seq<Packet>): (r: Rx)
    requires Sized(rx)
    ensures Sized(r)
    decreases |packets|
  {
    if packets == [] then rx else Deliver(AcceptPacket(rx, packets[0]).rx, packets[1..])
  }

  /** The invariant over a whole stream of arbitrary packets. */
  lemma {:induction false} StreamInvariant(rx: Rx, packets: seq<Packet>)
    requires Invariant(rx)
    ensures Invariant(Deliver(rx, packets))
    decreases |packets|
  {
    if packets != [] {
      AcceptInvariant(rx, packets[0]);
      StreamInvariant(AcceptPacket(rx, packets[0]).rx, packets[1..]);
    }
  }

  // ---- What is answered

  /** A delta newer than what is shown on which it cannot be based is answered at once, with a plea for a full
      snapshot; nothing else changes. */
  lemma RefusedDelta(rx: Rx, p: Packet)
    requires Sized(rx) && WellFormed(p) && p.kind == DELTA
    requires rx.sequence != 0 ==> Newer(p.sequence, rx.sequence)
    requires rx.needFull || rx.sequence == 0 || p.base != rx.sequence
    ensures var r := AcceptPacket(rx, p);
      r.ack && r.rx == rx.(needFull := true) && Acknowledgement(r.rx) == 0
  {
  }

  lemma {:induction false} ApplyAllLength(s: seq<Record>, ops: seq<WireRecord>)
    ensures |ApplyAll(s, ops)| <= |s| + |ops|
    decreases |ops|
  {
    if |ops| > 0 {
      ApplyAllLength(ApplyOne(s, ops[0]), ops[1..]);
    }
  }

  lemma {:induction false} InsertLength(s: seq<Record>, r: Record)
    requires Canonical(s)
    ensures |Insert(s, r)| <= |s| + 1
  {
    if |s| > 0 {
      CanonicalTail(s);
      InsertLength(s[1..], r);
    }
  }

  lemma {:induction false} CanonicalizedLength(s: seq<Record>)
    ensures |Canonicalized(s)| <= |s|
    decreases |s|
  {
    if |s| > 0 {
      CanonicalizedLength(s[..|s| - 1]);
      InsertLength(Canonicalized(s[..|s| - 1]), s[|s| - 1]);
    }
  }

  /** A full transaction is never too long for the receiver. */
  lemma FullFits(rx: Rx)
    requires Sized(rx) && |rx.received| <= MAX_CHUNKS && rx.pendingKind == FULL && rx.pendingSize <= |rx.pending|
    ensures CommitPending(rx).rx.sequence == rx.pendingSequence
  {
    var ops := rx.pending[..rx.pendingSize];
    ApplyAllLength([], ops);
    CanonicalizedLength(ApplyAll([], ops));
  }

  /** An answer is due exactly when there is news: the receiver shows the packet's transaction, or it cannot take
      the newer delta that the packet belongs to. */
  lemma AnsweredWhenThereIsNews(rx: Rx, p: Packet)
    requires Sized(rx)
    ensures var r := AcceptPacket(rx, p);
      r.ack == (WellFormed(p) &&
                (r.rx.sequence == p.sequence
                 || (p.kind == DELTA && r.rx.needFull && (rx.sequence != 0 ==> Newer(p.sequence, rx.sequence)))))
  {
    if Admitted(rx, p) {
      AnsweredWhenComplete(rx, p);
    }
  }

  lemma AnsweredWhenComplete(rx: Rx, p: Packet)
    requires Sized(rx) && Admitted(rx, p)
    ensures var r := IngestPacket(rx, p);
      r.ack <==> r.rx.sequence == p.sequence || (p.kind == DELTA && r.rx.needFull)
  {
    hide Canonicalized, ApplyAll;
    var begun := Begin(rx, p);
    if Matches(begun, p) {
      var stored := Store(begun, p);
      if false !in stored.received && p.kind == FULL {
        FullFits(stored);
      }
    }
  }

  /** The first copy of a chunk stands: under the pending sequence neither another copy nor a packet that
      disagrees about the transaction's size, kind or base changes anything. */
  lemma FirstCopyStands(rx: Rx, p: Packet)
    requires Sized(rx) && Admitted(rx, p) && rx.pendingSequence == p.sequence && false in rx.received
    requires |rx.received| != p.chunkCount || rx.pendingKind != p.kind || rx.pendingBase != p.base || rx.received[p.chunkIndex]
    ensures AcceptPacket(rx, p) == Accepted(rx, false)
  {
  }
}
