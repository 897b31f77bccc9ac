/** The trampoline that calls a camera helper in the middle of engine code. */
module Trampolines {
  import opened Words
  import opened Machines

  function Entry(rel: Word): Listing {
    Line([0x9C], PushFlags, Line([0x60], PushAll, Line([0xE8] + Double(rel), Call(rel), End)))
  }

  function Restore(): Listing {
    Line([0x61], PopAll, Line([0x9D], PopFlags, End))
  }

  function Exit(rel: Word): Listing {
    Line([0xE9] + Double(rel), Jump(rel), End)
  }

  function CallRel(base: Word, helper: Word): Word {
    Sub32(helper, Add32(base, 7))
  }

  function JumpRel(base: Word, continuation: Word, replay: seq<U8>): Word {
    Sub32(continuation, (base + 14 + |replay|) % 0x1_0000_0000)
  }

  /** What the trampoline holds from its eighth byte on. */
  function Return(base: Word, continuation: Word, replay: seq<U8>): seq<U8> {
    Bytes(Restore()) + (replay + Bytes(Exit(JumpRel(base, continuation, replay))))
  }

  function Trampoline(base: Word, helper: Word, continuation: Word, replay: seq<U8>): seq<U8> {
    Bytes(Entry(CallRel(base, helper))) + Return(base, continuation, replay)
  }

  /** `memcpy` into the code buffer. */
  method Copy(code: array<U8>, at: nat, bytes: seq<U8>)
    requires at + |bytes| <= code.Length
    modifies code
    ensures code[..at + |bytes|] == old(code[..at]) + bytes
    ensures forall i :: at + |bytes| <= i < code.Length ==> code[i] == old(code[i])
  {
    for k := 0 to |bytes|
      invariant code[..at + k] == old(code[..at]) + bytes[..k]
      invariant forall i :: at + k <= i < code.Length ==> code[i] == old(code[i])
    {
      code[at + k] := bytes[k];
    }
  }

  /** `BuildTrampoline`, for a buffer that lies at `base`. */
  method BuildTrampoline(code: array<U8>, base: Word, helper: Word, continuation: Word, replay: seq<U8>)
    requires 14 + |replay| <= code.Length
    modifies code
    ensures code[..14 + |replay|] == Trampoline(base, helper, continuation, replay)
    ensures forall i :: 14 + |replay| <= i < code.Length ==> code[i] == old(code[i])
  {
    var n := |replay|;
    var call, jump := Double(CallRel(base, helper)), Double(JumpRel(base, continuation, replay));
    ghost var front := [0x9C, 0x60, 0xE8] + call + [0x61, 0x9D];
    Copy(code, 0, [0x9C, 0x60, 0xE8]);
    Copy(code, 3, call);
    Copy(code, 7, [0x61, 0x9D]);
    assert code[..9] == front;
    if n > 0 {
      Copy(code, 9, replay);
    }
    assert code[..9 + n] == front + replay;
    Copy(code, 9 + n, [0xE9]);
    Copy(code, 10 + n, jump);
    assert code[..14 + n] == front + replay + [0xE9] + jump;
    TrampolineBytes(base, helper, continuation, replay);
  }

  lemma TrampolineBytes(base: Word, helper: Word, continuation: Word, replay: seq<U8>)
    ensures Trampoline(base, helper, continuation, replay) ==
      [0x9C, 0x60, 0xE8] + Double(CallRel(base, helper)) + [0x61, 0x9D] + replay
      + [0xE9] + Double(JumpRel(base, continuation, replay))
  {
    hide Double;
    var e, r, x := Entry(CallRel(base, helper)), Restore(), Exit(JumpRel(base, continuation, replay));
    assert Bytes(e.rest.rest) == [0xE8] + Double(CallRel(base, helper));
    assert Bytes(e.rest) == [0x60] + Bytes(e.rest.rest);
    assert Bytes(r.rest) == [0x9D];
    assert Bytes(x) == [0xE9] + Double(JumpRel(base, continuation, replay));
  }

  lemma AreFaithful(rel: Word)
    ensures Faithful(Entry(rel)) && Faithful(Restore()) && Faithful(Exit(rel))
  {
    BytesDecode();
    RelDecodes(rel);
    hide Decode;
    assert Faithful(Entry(rel).rest.rest);
    assert Faithful(Restore().rest);
  }

  lemma BytesDecode()
    ensures Decode([0x9C]) == Decoded(PushFlags, 1) && Decode([0x60]) == Decoded(PushAll, 1)
    ensures Decode([0x61]) == Decoded(PopAll, 1) && Decode([0x9D]) == Decoded(PopFlags, 1)
  {
  }

  lemma RelDecodes(rel: Word)
    ensures Decode([0xE8] + Double(rel)) == Decoded(Call(rel), 5)
    ensures Decode([0xE9] + Double(rel)) == Decoded(Jump(rel), 5)
  {
    var d := Double(rel);
    assert Imm32([0xE8] + d, 1) == Imm32([0xE9] + d, 1) == rel;
    hide Double;
  }

  /** Entered at its base, the trampoline calls the helper with the return address, all registers and the
      flags on the stack. */
  lemma Calls(base: Word, helper: Word, continuation: Word, replay: seq<U8>, m: Machine, mem: Memory)
    requires m.eip == base
    ensures var o := Run(Trampoline(base, helper, continuation, replay), m, mem);
      && o.Leaves? && o.m.eip == helper
      && o.m.stack == [Value(Add32(base, 7))] + Frame(m)
      && o.m.regs == m.regs.(esp := Sub32(m.regs.esp, 40)) && o.m.flags == m.flags
  {
    hide Decode, Faithful, Perform, Bytes, Saved;
    var l := Entry(CallRel(base, helper));
    AreFaithful(CallRel(base, helper));
    RunListing(l, Return(base, continuation, replay), m, mem);
    PerformLine(l, m, mem);
    var m1 := Execute(PushFlags, Behind(m, 1), mem).m;
    PerformLine(l.rest, m1, mem);
    var m2 := Execute(PushAll, Behind(m1, 1), mem).m;
    assert m2.stack == Frame(m) && m2.eip == Add32(base, 2) && m2.regs == m.regs.(esp := Sub32(m.regs.esp, 36));
    PerformLine(l.rest.rest, m2, mem);
    CallReaches(base, helper, m2, mem);
  }

  lemma CallReaches(base: Word, helper: Word, m: Machine, mem: Memory)
    requires m.eip == Add32(base, 2)
    ensures Execute(Call(CallRel(base, helper)), Behind(m, 5), mem) == Leaves(
      m.(eip := helper, stack := [Value(Add32(base, 7))] + m.stack, regs := m.regs.(esp := Sub32(m.regs.esp, 4))))
  {
    var next := Add32(base, 7);
    assert Behind(m, 5).eip == next;
    assert Add32(next, Sub32(helper, next)) == helper;
  }

  /** Registers, flags, and what was on the stack before. */
  function Frame(m: Machine): seq<Cell> {
    Saved(m.regs.(esp := Sub32(m.regs.esp, 4))) + [Image(m.flags)] + m.stack
  }

  /** A helper that returns there with the stack as it found it, having changed any registers, flags and
      memory, resumes the code as if nothing had happened: with every register and flag as on entry, the
      replayed instructions are executed and control passes to the continuation. */
  lemma Resumes(base: Word, continuation: Word, replay: seq<U8>, m: Machine, h: Machine, mem: Memory)
    requires h.eip == Add32(base, 7) && h.stack == Frame(m) && h.regs.esp == Sub32(m.regs.esp, 36)
    requires Run(replay, m.(eip := Add32(base, 9)), mem).Through?
    ensures Run(Return(base, continuation, replay), h, mem)
      == Leaves(Run(replay, m.(eip := Add32(base, 9)), mem).m.(eip := continuation))
  {
    hide Decode, Faithful, Perform, Bytes, Execute, Run;
    var x := Exit(JumpRel(base, continuation, replay));
    AreFaithful(JumpRel(base, continuation, replay));
    RunListing(Restore(), replay + Bytes(x), h, mem);
    Restores(base, m, h, mem);
    var resumed := m.(eip := Add32(base, 9));
    RunConcatenated(replay, Bytes(x), resumed, mem);
    ThroughEndsBehind(replay, resumed, mem);
    var r := Run(replay, resumed, mem).m;
    RunListing(x, [], r, mem);
    assert Bytes(x) + [] == Bytes(x);
    Exits(base, continuation, replay, r, mem);
  }

  lemma Restores(base: Word, m: Machine, h: Machine, mem: Memory)
    requires h.eip == Add32(base, 7) && h.stack == Frame(m) && h.regs.esp == Sub32(m.regs.esp, 36)
    requires Faithful(Restore())
    ensures Perform(Restore(), h, mem) == Through(m.(eip := Add32(base, 9)))
  {
    hide Decode, Faithful, Perform;
    var l := Restore();
    PerformLine(l, h, mem);
    var h1 := Behind(h, 1).(regs := m.regs.(esp := Sub32(m.regs.esp, 4)), stack := [Image(m.flags)] + m.stack);
    assert Frame(m)[8..] == h1.stack;
    assert Execute(PopAll, Behind(h, 1), mem) == Through(h1);
    PerformLine(l.rest, h1, mem);
    assert h1.stack[1..] == m.stack;
    PerformEnd(m.(eip := Add32(base, 9)), mem);
  }

  lemma Exits(base: Word, continuation: Word, replay: seq<U8>, m: Machine, mem: Memory)
    requires m.eip == (Add32(base, 9) + |replay|) % 0x1_0000_0000
    requires Faithful(Exit(JumpRel(base, continuation, replay)))
    ensures Perform(Exit(JumpRel(base, continuation, replay)), m, mem) == Leaves(m.(eip := continuation))
  {
    hide Decode, Faithful, Perform;
    Steps(base, 9, |replay|);
    Steps(base, 9 + |replay|, 5);
    PerformLine(Exit(JumpRel(base, continuation, replay)), m, mem);
    var behind := (base + 14 + |replay|) % 0x1_0000_0000;
    assert Behind(m, 5).eip == behind;
    assert Add32(behind, Sub32(continuation, behind)) == continuation;
  }

  lemma Steps(base: Word, i: nat, j: nat)
    ensures ((base + i) % 0x1_0000_0000 + j) % 0x1_0000_0000 == (base + i + j) % 0x1_0000_0000
  {
  }

  /** The small-map hook replays `mov ecx, [0x511DE8]`, the instruction its jump overwrote. */
  lemma PhaseHookResumes(base: Word, m: Machine, h: Machine, mem: Memory)
    requires h.eip == Add32(base, 7) && h.stack == Frame(m) && h.regs.esp == Sub32(m.regs.esp, 36)
    ensures Run(Return(base, 0x0041CA16, [0x8B, 0x0D, 0xE8, 0x1D, 0x51, 0x00]), h, mem)
      == Leaves(m.(regs := m.regs.(ecx := Load32(mem, 0x0051_1DE8)), eip := 0x0041CA16))
  {
    var replay := [0x8B, 0x0D, 0xE8, 0x1D, 0x51, 0x00];
    assert Decode(replay) == Decoded(LoadAt(Ecx, 0x0051_1DE8), 6);
    hide Decode, Load32;
    var resumed := m.(eip := Add32(base, 9));
    assert replay[6..] == [];
    assert Run(replay, resumed, mem) == Through(Behind(resumed, 6).(regs := m.regs.(ecx := Load32(mem, 0x0051_1DE8))));
    hide Run, Return;
    Resumes(base, 0x0041CA16, replay, m, h, mem);
  }
}
