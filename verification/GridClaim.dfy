/** The six 17-byte patches that let the lower unit index win a contested map cell. */
module GridClaim {
  import opened Words
  import opened Machines

  /** The re-claim sites keep the incumbent in ecx and may use dx; the stamp sites keep it in eax and must
      leave edx, the live tile pointer, alone. */
  datatype Variant = Reclaim | Stamp

  datatype Site = Site(address: Word, evict: Word, variant: Variant)

  const SITES: seq<Site> := [
    Site(0x0047C847, 0x0047C87E, Reclaim),
    Site(0x0047C950, 0x0047C987, Reclaim),
    Site(0x0047CA2C, 0x0047CA63, Reclaim),
    Site(0x0047CDCA, 0x0047CE00, Stamp),
    Site(0x0047CF00, 0x0047CF36, Stamp),
    Site(0x0047CFDA, 0x0047D010, Stamp)]

  function Incumbent(v: Variant): Reg {
    if v.Reclaim? then Ecx else Eax
  }

  function Scratch(v: Variant): Reg {
    if v.Reclaim? then Edx else Ecx
  }

  /** The code the engine comes with. */
  function Original(v: Variant): Listing {
    match v
    case Reclaim =>
      Line([0x8B, 0x91, 0x96, 0x00, 0x00, 0x00], Load(Edx, Ecx, 0x96),
      Line([0x83, 0x3A, 0x00], CompareCell(Edx, 0),
      Line([0x74, 0x06], JumpIf(IfZero, 0x06),
      Line([0x80, 0x7A, 0x73, 0x03], CompareByte(Edx, 0x73, 3),
      Line([0x74, 0x26], JumpIf(IfZero, 0x26), End)))))
    case Stamp =>
      Line([0x8B, 0x88, 0x96, 0x00, 0x00, 0x00], Load(Ecx, Eax, 0x96),
      Line([0x83, 0x39, 0x00], CompareCell(Ecx, 0),
      Line([0x74, 0x06], JumpIf(IfZero, 0x06),
      Line([0x80, 0x79, 0x73, 0x03], CompareByte(Ecx, 0x73, 3),
      Line([0x74, 0x25], JumpIf(IfZero, 0x25), End)))))
  }

  function Replacement(v: Variant): seq<U8> {
    match v
    case Reclaim => [0x66, 0x8B, 0x96, 0xA8, 0x00, 0x00, 0x00] + [0x66, 0x3B, 0x91, 0xA8, 0x00, 0x00, 0x00]
    case Stamp => [0x66, 0x8B, 0x8E, 0xA8, 0x00, 0x00, 0x00] + [0x66, 0x3B, 0x88, 0xA8, 0x00, 0x00, 0x00]
  }

  /** The code the patch puts there; `rel` is the jump's displacement byte. */
  function Patch(v: Variant, rel: U8): Listing {
    Line(Replacement(v)[..7], LoadLow16(Scratch(v), Esi, 0xA8),
    Line(Replacement(v)[7..], Compare16(Scratch(v), Incumbent(v), 0xA8),
    Line([0x72, rel], JumpIf(IfCarry, SignExtend(rel)),
    Line([0x90], Nop, End))))
  }

  function Signed(w: Word): int {
    if w < 0x8000_0000 then w else w - 0x1_0000_0000
  }

  /** How far the evict branch lies behind the short jump. */
  function Delta(s: Site): int {
    Signed(s.evict) - Signed(Add32(s.address, 16))
  }

  /** `BuildPatch`: succeeds exactly when the target is in reach of a short jump. */
  method BuildPatch(s: Site, out: array<U8>) returns (ok: bool)
    requires out.Length == 17
    modifies out
    ensures ok <==> -128 <= Delta(s) <= 127
    ensures ok ==> out[..] == Bytes(Patch(s.variant, Delta(s) % 0x100))
    ensures !ok ==> out[..] == Replacement(s.variant) + [0x90, 0x90, 0x90]
  {
    forall k | 0 <= k < out.Length {
      out[k] := 0x90;
    }
    var r := Replacement(s.variant);
    forall k | 0 <= k < 14 {
      out[k] := r[k];
    }
    assert out[..] == r + [0x90, 0x90, 0x90];
    var next := Add32(s.address, 14 + 2);
    var delta := Signed(s.evict) - Signed(next);
    if delta < -128 || delta > 127 {
      return false;
    }
    out[14] := 0x72;
    out[15] := delta % 0x100;
    PatchBytes(s.variant, delta % 0x100);
    assert out[..] == r + [0x72, delta % 0x100, 0x90];
    return true;
  }

  lemma PatchBytes(v: Variant, rel: U8)
    ensures Bytes(Patch(v, rel)) == Replacement(v) + [0x72, rel, 0x90]
  {
    var l := Patch(v, rel);
    var r := Replacement(v);
    assert Bytes(l.rest.rest) == [0x72, rel, 0x90];
    assert r == r[..7] + r[7..];
  }

  lemma PatchIsFaithful(v: Variant, rel: U8)
    ensures Faithful(Patch(v, rel))
  {
    var l := Patch(v, rel);
    ReplacementDecodes(v);
    assert Decode([0x72, rel]) == Decoded(JumpIf(IfCarry, SignExtend(rel)), 2);
    assert Decode([0x90]) == Decoded(Nop, 1);
    hide Decode;
    assert Faithful(l.rest.rest);
  }

  lemma ReplacementDecodes(v: Variant)
    ensures Decode(Replacement(v)[..7]) == Decoded(LoadLow16(Scratch(v), Esi, 0xA8), 7)
    ensures Decode(Replacement(v)[7..]) == Decoded(Compare16(Scratch(v), Incumbent(v), 0xA8), 7)
  {
    ReclaimDecodes();
    StampDecodes();
    hide Decode;
    var r := Replacement(v);
    assert r[..7] == if v.Reclaim? then [0x66, 0x8B, 0x96, 0xA8, 0x00, 0x00, 0x00] else [0x66, 0x8B, 0x8E, 0xA8, 0x00, 0x00, 0x00];
    assert r[7..] == if v.Reclaim? then [0x66, 0x3B, 0x91, 0xA8, 0x00, 0x00, 0x00] else [0x66, 0x3B, 0x88, 0xA8, 0x00, 0x00, 0x00];
  }

  lemma ReclaimDecodes()
    ensures Decode([0x66, 0x8B, 0x96, 0xA8, 0x00, 0x00, 0x00]) == Decoded(LoadLow16(Edx, Esi, 0xA8), 7)
    ensures Decode([0x66, 0x3B, 0x91, 0xA8, 0x00, 0x00, 0x00]) == Decoded(Compare16(Edx, Ecx, 0xA8), 7)
  {
  }

  lemma StampDecodes()
    ensures Decode([0x66, 0x8B, 0x8E, 0xA8, 0x00, 0x00, 0x00]) == Decoded(LoadLow16(Ecx, Esi, 0xA8), 7)
    ensures Decode([0x66, 0x3B, 0x88, 0xA8, 0x00, 0x00, 0x00]) == Decoded(Compare16(Ecx, Eax, 0xA8), 7)
  {
  }

  /** `UnitInGameIndex` of the unit at this address. */
  function Index(mem: Memory, unit: Word): U16 {
    Load16(mem, Add32(unit, 0xA8))
  }

  /** The patched code leaves for the evict branch exactly when the claimant's index is strictly lower,
      and otherwise falls through behind the 17 bytes; only the scratch register and flags change. */
  lemma PatchDecides(s: Site, m: Machine, mem: Memory)
    requires m.eip == s.address && -128 <= Delta(s) <= 127
    ensures var o := Run(Bytes(Patch(s.variant, Delta(s) % 0x100)), m, mem);
      && !o.Faults?
      && (o.Leaves? <==> Index(mem, m.regs.esi) < Index(mem, m.regs.Get(Incumbent(s.variant))))
      && o.m.eip == (if o.Leaves? then s.evict else Add32(s.address, 17))
      && OnlyChanges(Scratch(s.variant), m, o.m)
  {
    hide Decode, Faithful, Perform, Bytes, Load16, Execute;
    var rel: U8 := Delta(s) % 0x100;
    var l := Patch(s.variant, rel);
    PatchIsFaithful(s.variant, rel);
    RunListing(l, [], m, mem);
    assert Bytes(l) + [] == Bytes(l);
    var m2 := Compares(s.variant, rel, m, mem);
    ShortJump(s);
    Jumps(rel, m2, mem);
  }

  predicate OnlyChanges(r: Reg, m: Machine, n: Machine) {
    n.regs == m.regs.Set(r, n.regs.Get(r)) && n.stack == m.stack
  }

  lemma Compares(v: Variant, rel: U8, m: Machine, mem: Memory) returns (m2: Machine)
    requires Faithful(Patch(v, rel))
    ensures var l := Patch(v, rel);
      Faithful(l.rest.rest) && Perform(l, m, mem) == Perform(l.rest.rest, m2, mem)
    ensures m2.eip == Add32(m.eip, 14) && OnlyChanges(Scratch(v), m, m2)
    ensures m2.flags.carry <==> Index(mem, m.regs.esi) < Index(mem, m.regs.Get(Incumbent(v)))
  {
    hide Decode, Faithful, Perform, Load16;
    var l := Patch(v, rel);
    PerformLine(l, m, mem);
    var m1 := Execute(l.instr, Behind(m, 7), mem).m;
    PerformLine(l.rest, m1, mem);
    m2 := Execute(l.rest.instr, Behind(m1, 7), mem).m;
  }

  function ToEvict(rel: U8): Listing {
    Line([0x72, rel], JumpIf(IfCarry, SignExtend(rel)), Line([0x90], Nop, End))
  }

  lemma Jumps(rel: U8, m: Machine, mem: Memory)
    requires Faithful(ToEvict(rel))
    ensures Perform(ToEvict(rel), m, mem) ==
      if m.flags.carry then Leaves(m.(eip := Add32(Add32(m.eip, 2), SignExtend(rel)))) else Through(m.(eip := Add32(m.eip, 3)))
  {
    hide Decode, Faithful, Perform;
    var l := ToEvict(rel);
    PerformLine(l, m, mem);
    if !m.flags.carry {
      PerformLine(l.rest, Behind(m, 2), mem);
      PerformEnd(Behind(m, 3), mem);
    }
  }

  lemma ShortJump(s: Site)
    requires -128 <= Delta(s) <= 127
    ensures Add32(Add32(s.address, 16), SignExtend(Delta(s) % 0x100)) == s.evict
  {
    var d := Delta(s);
    assert d % 0x100 == if d < 0 then d + 0x100 else d;
  }

  /** The incumbent's owner is an active player that this client sees as a remote human. */
  predicate RemoteHuman(mem: Memory, unit: Word) {
    var player := Load32(mem, Add32(unit, 0x96));
    Load32(mem, player) != 0 && mem(Add32(player, 0x73)) == 3
  }

  function EvictRel(v: Variant): U8 {
    if v.Reclaim? then 0x26 else 0x25
  }

  lemma OriginalIsFaithful(v: Variant)
    ensures Faithful(Original(v))
  {
    var l := Original(v);
    OriginalLoads();
    OriginalDecodes();
    hide Decode;
    assert Faithful(l.rest.rest.rest);
    assert Faithful(l.rest);
  }

  lemma OriginalLoads()
    ensures Decode([0x8B, 0x91, 0x96, 0x00, 0x00, 0x00]) == Decoded(Load(Edx, Ecx, 0x96), 6)
    ensures Decode([0x8B, 0x88, 0x96, 0x00, 0x00, 0x00]) == Decoded(Load(Ecx, Eax, 0x96), 6)
  {
  }

  lemma OriginalDecodes()
    ensures Decode([0x83, 0x3A, 0x00]) == Decoded(CompareCell(Edx, 0), 3)
    ensures Decode([0x83, 0x39, 0x00]) == Decoded(CompareCell(Ecx, 0), 3)
    ensures Decode([0x80, 0x7A, 0x73, 0x03]) == Decoded(CompareByte(Edx, 0x73, 3), 4)
    ensures Decode([0x80, 0x79, 0x73, 0x03]) == Decoded(CompareByte(Ecx, 0x73, 3), 4)
    ensures Decode([0x74, 0x06]) == Decoded(JumpIf(IfZero, 0x06), 2)
    ensures Decode([0x74, 0x26]) == Decoded(JumpIf(IfZero, 0x26), 2)
    ensures Decode([0x74, 0x25]) == Decoded(JumpIf(IfZero, 0x25), 2)
  {
  }

  /** The original code asks only whose unit the incumbent is, as this client sees it; at every site its
      two ways out are the ones the patched code has. */
  lemma OriginalDecides(s: Site, m: Machine, mem: Memory)
    requires m.eip == s.address && s in SITES
    ensures var o := Run(Bytes(Original(s.variant)), m, mem);
      && !o.Faults?
      && o.m.eip == (if RemoteHuman(mem, m.regs.Get(Incumbent(s.variant))) then s.evict else Add32(s.address, 17))
      && OnlyChanges(Scratch(s.variant), m, o.m)
  {
    hide Decode, Faithful, Perform, Bytes, Load32, Execute;
    var l := Original(s.variant);
    OriginalIsFaithful(s.variant);
    RunListing(l, [], m, mem);
    assert Bytes(l) + [] == Bytes(l);
    var m2 := AsksActive(s.variant, m, mem);
    AsksRemote(s.variant, m2, mem);
  }

  lemma AsksActive(v: Variant, m: Machine, mem: Memory) returns (m3: Machine)
    requires Faithful(Original(v))
    ensures var l := Original(v);
      && Faithful(l.rest.rest.rest)
      && Perform(l, m, mem) ==
        if m3.flags.zero then Leaves(m3.(eip := Add32(m3.eip, 6))) else Perform(l.rest.rest.rest, m3, mem)
    ensures m3.eip == Add32(m.eip, 11) && OnlyChanges(Scratch(v), m, m3)
    ensures var player := Load32(mem, Add32(m.regs.Get(Incumbent(v)), 0x96));
      m3.regs.Get(Scratch(v)) == player && m3.flags.zero == (Load32(mem, player) == 0)
  {
    hide Decode, Faithful, Perform, Load32;
    var l := Original(v);
    PerformLine(l, m, mem);
    var m1 := Execute(l.instr, Behind(m, 6), mem).m;
    PerformLine(l.rest, m1, mem);
    var m2 := Execute(l.rest.instr, Behind(m1, 3), mem).m;
    PerformLine(l.rest.rest, m2, mem);
    m3 := Behind(m2, 2);
  }

  lemma AsksRemote(v: Variant, m: Machine, mem: Memory)
    requires Faithful(Original(v).rest.rest.rest)
    ensures var remote := mem(Add32(m.regs.Get(Scratch(v)), 0x73)) == 3;
      var o := Perform(Original(v).rest.rest.rest, m, mem);
      && !o.Faults? && o.m.regs == m.regs && o.m.stack == m.stack
      && o.m.eip == Add32(m.eip, if remote then 6 + EvictRel(v) else 6)
  {
    hide Decode, Faithful, Perform;
    var l := Original(v).rest.rest.rest;
    PerformLine(l, m, mem);
    var m1 := Execute(l.instr, Behind(m, 4), mem).m;
    PerformLine(l.rest, m1, mem);
    PerformEnd(Behind(m1, 2), mem);
  }

  lemma SitesPatchable()
    ensures forall s :: s in SITES ==> -128 <= Delta(s) <= 127
  {
  }

  /** A unit claims the cell through one of the sites, with whatever the machine and its memory hold then. */
  datatype Claim = Claim(unit: Word, site: Site, m: Machine, mem: Memory)

  /** The code at the claim's site, entered for this claimant and incumbent, leaves for the evict branch. */
  predicate Evicts(code: seq<U8>, c: Claim, incumbent: Word) {
    var regs := c.m.regs.Set(Incumbent(c.site.variant), incumbent).Set(Esi, c.unit);
    var o := Run(code, c.m.(regs := regs, eip := c.site.address), c.mem);
    !o.Faults? && o.m.eip == c.site.evict
  }

  function CodeAt(s: Site, patched: bool): seq<U8> {
    Bytes(if patched then Patch(s.variant, Delta(s) % 0x100) else Original(s.variant))
  }

  /** The unit on a cell after units claim it one after the other, each through its own site. */
  function Contest(patched: bool, holder: Word, claims: seq<Claim>): Word
    decreases |claims|
  {
    if |claims| == 0 then holder
    else
      var c := claims[0];
      Contest(patched, if Evicts(CodeAt(c.site, patched), c, holder) then c.unit else holder, claims[1..])
  }

  function Units(holder: Word, claims: seq<Claim>): (u: seq<Word>)
    ensures |u| == |claims| + 1 && u[0] == holder
    ensures forall k :: 0 <= k < |claims| ==> u[k + 1] == claims[k].unit
  {
    [holder] + seq(|claims|, k requires 0 <= k < |claims| => claims[k].unit)
  }

  lemma UnitsNext(holder: Word, claims: seq<Claim>, next: Word)
    requires |claims| > 0 && (next == holder || next == claims[0].unit)
    ensures forall u :: u in Units(next, claims[1..]) ==> u in Units(holder, claims)
    ensures forall u :: u in Units(holder, claims) ==> u == holder || u == claims[0].unit || u in Units(next, claims[1..])
  {
    var all, rest := Units(holder, claims), Units(next, claims[1..]);
    assert all[1] == claims[0].unit;
    forall k | 1 <= k < |rest| ensures rest[k] in all {
      assert rest[k] == claims[1..][k - 1].unit == all[k + 1];
    }
    forall k | 2 <= k < |all| ensures all[k] in rest {
      assert all[k] == rest[k - 1];
    }
  }

  lemma LastUnit(holder: Word, claims: seq<Claim>, next: Word)
    requires |claims| > 0
    ensures Units(next, claims[1..])[0] == next
    ensures Units(holder, claims)[|claims|] == if |claims| == 1 then claims[0].unit else Units(next, claims[1..])[|claims| - 1]
  {
  }

  /** Every claim goes through one of the six sites, and every memory gives the units the same index. */
  ghost predicate Agreed(claims: seq<Claim>, units: seq<Word>, index: Word -> U16) {
    && (forall c :: c in claims ==> c.site in SITES)
    && (forall c, u :: c in claims && u in units ==> Index(c.mem, u) == index(u))
  }

  lemma PatchEvicts(c: Claim, incumbent: Word)
    requires c.site in SITES
    ensures Evicts(CodeAt(c.site, true), c, incumbent) <==> Index(c.mem, c.unit) < Index(c.mem, incumbent)
  {
    hide Run, Bytes, Patch, Index;
    var regs := c.m.regs.Set(Incumbent(c.site.variant), incumbent).Set(Esi, c.unit);
    PatchDecides(c.site, c.m.(regs := regs, eip := c.site.address), c.mem);
  }

  lemma OriginalEvicts(c: Claim, incumbent: Word)
    requires c.site in SITES
    ensures Evicts(CodeAt(c.site, false), c, incumbent) <==> RemoteHuman(c.mem, incumbent)
  {
    hide Run, Bytes, Original, RemoteHuman;
    var regs := c.m.regs.Set(Incumbent(c.site.variant), incumbent).Set(Esi, c.unit);
    OriginalDecides(c.site, c.m.(regs := regs, eip := c.site.address), c.mem);
  }

  /** With the patches in place, whichever of the sites the claims take turns through, the cell ends up with
      the lowest index of all that claimed or held it. */
  lemma {:induction false} LowestHolds(holder: Word, claims: seq<Claim>, index: Word -> U16)
    requires Agreed(claims, Units(holder, claims), index)
    ensures var h := Contest(true, holder, claims);
      h in Units(holder, claims) && forall u :: u in Units(holder, claims) ==> index(h) <= index(u)
    decreases |claims|
  {
    hide Evicts, Index, Units, SITES;
    if |claims| > 0 {
      var c := claims[0];
      PatchEvicts(c, holder);
      var next := if Evicts(CodeAt(c.site, true), c, holder) then c.unit else holder;
      UnitsNext(holder, claims, next);
      var all, rest := Units(holder, claims), Units(next, claims[1..]);
      assert holder == all[0] && c.unit == all[1] && next == rest[0];
      assert Agreed(claims[1..], rest, index);
      LowestHolds(next, claims[1..], index);
      var h := Contest(true, next, claims[1..]);
      assert index(next) <= index(holder) && index(next) <= index(c.unit) by {
        assert Index(c.mem, holder) == index(holder) && Index(c.mem, c.unit) == index(c.unit);
      }
      assert index(h) <= index(next);
    }
  }

  /** Two clients to which the same units lay claim, through whichever sites and in whatever order, and whose
      memories agree on the indices of these units, record units of the same index. */
  lemma ClientsAgree(holder: Word, claims: seq<Claim>, holder': Word, claims': seq<Claim>, index: Word -> U16)
    requires multiset(Units(holder, claims)) == multiset(Units(holder', claims'))
    requires Agreed(claims, Units(holder, claims), index) && Agreed(claims', Units(holder', claims'), index)
    ensures index(Contest(true, holder, claims)) == index(Contest(true, holder', claims'))
  {
    hide Contest, Agreed, Units;
    LowestHolds(holder, claims, index);
    LowestHolds(holder', claims', index);
    var h, h' := Contest(true, holder, claims), Contest(true, holder', claims');
    assert h in multiset(Units(holder, claims)) && h' in multiset(Units(holder', claims'));
    assert h in Units(holder', claims') && h' in Units(holder, claims);
  }

  /** Under the original code the holder depends on who is asked: on a client that sees none of the units
      as a remote human's the first claimant stays, on one that sees all of them so the last one does. */
  lemma {:induction false} ClientsDisagree(remote: bool, holder: Word, claims: seq<Claim>)
    requires forall c :: c in claims ==> c.site in SITES
    requires forall c, u :: c in claims && u in Units(holder, claims) ==> RemoteHuman(c.mem, u) == remote
    ensures Contest(false, holder, claims) == Units(holder, claims)[if remote then |claims| else 0]
    decreases |claims|
  {
    hide Evicts, RemoteHuman, Units, SITES;
    if |claims| > 0 {
      var c := claims[0];
      OriginalEvicts(c, holder);
      assert holder == Units(holder, claims)[0] && c.unit == Units(holder, claims)[1];
      var next := if remote then c.unit else holder;
      UnitsNext(holder, claims, next);
      ClientsDisagree(remote, next, claims[1..]);
      assert holder in Units(holder, claims) && c in claims;
      assert Evicts(CodeAt(c.site, false), c, holder) == remote;
      assert Contest(false, holder, claims) == Contest(false, next, claims[1..]);
      LastUnit(holder, claims, next);
    }
  }
}
