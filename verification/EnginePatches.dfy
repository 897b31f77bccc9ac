/** All-or-nothing code patches, and the effect-slot allocator. */
module EnginePatches {
  import opened Words

  /** Mapped memory. */
  type Memory = map<nat, U8>

  datatype Patch = Patch(address: nat, expected: seq<U8>, replacement: seq<U8>)

  predicate InRange(k: nat, address: nat, length: nat) {
    address <= k < address + length
  }

  function Written(m: Memory, address: nat, bytes: seq<U8>): Memory {
    map k | k in m :: if InRange(k, address, |bytes|) then bytes[k - address] else m[k]
  }

  /** `MemoryEquals`: reading unmapped memory is a mismatch. */
  predicate Holds(m: Memory, address: nat, bytes: seq<U8>) {
    forall i :: 0 <= i < |bytes| ==> address + i in m && m[address + i] == bytes[i]
  }

  predicate Valid(m: Memory, p: Patch) {
    |p.expected| == |p.replacement| && Holds(m, p.address, p.expected)
  }

  /** All patches, first to last. */
  function Patched(m: Memory, patches: seq<Patch>): Memory {
    if |patches| == 0 then m
    else
      var last := patches[|patches| - 1];
      Written(Patched(m, patches[..|patches| - 1]), last.address, last.replacement)
  }

  /** Where patches overlap the last one wins; bytes that none covers keep their value. */
  lemma {:induction false} PatchedAt(m: Memory, patches: seq<Patch>, k: nat)
    requires k in m
    ensures Patched(m, patches).Keys == m.Keys
    ensures (forall i :: 0 <= i < |patches| ==> !Covers(patches[i], k)) ==> Patched(m, patches)[k] == m[k]
    ensures forall i ::
      (0 <= i < |patches| && Covers(patches[i], k) && forall j :: i < j < |patches| ==> !Covers(patches[j], k)) ==>
        Patched(m, patches)[k] == patches[i].replacement[k - patches[i].address]
    decreases |patches|
  {
    if |patches| > 0 {
      var front, last := patches[..|patches| - 1], patches[|patches| - 1];
      PatchedAt(m, front, k);
      assert Patched(m, patches) == Written(Patched(m, front), last.address, last.replacement);
      hide Patched;
      assert forall i :: 0 <= i < |front| ==> front[i] == patches[i];
      forall i | 0 <= i < |patches| && Covers(patches[i], k) && forall j :: i < j < |patches| ==> !Covers(patches[j], k)
        ensures Written(Patched(m, front), last.address, last.replacement)[k] == patches[i].replacement[k - patches[i].address]
      {
        assert i < |front| ==> !Covers(last, k) && front[i] == patches[i];
      }
    }
  }

  predicate Covers(p: Patch, k: nat) {
    InRange(k, p.address, |p.replacement|)
  }

  /** Memory m differs from the original only where one of the patches lies. */
  ghost predicate Confined(original: Memory, m: Memory, patches: seq<Patch>) {
    && m.Keys == original.Keys
    && forall k :: k in m && m[k] != original[k] ==>
         exists i :: 0 <= i < |patches| && InRange(k, patches[i].address, |patches[i].expected|)
  }

  lemma WriteConfined(original: Memory, m: Memory, patches: seq<Patch>, p: Patch)
    requires Confined(original, m, patches) && |p.expected| == |p.replacement|
    ensures Confined(original, Written(m, p.address, p.replacement), patches + [p])
  {
    var all, w := patches + [p], Written(m, p.address, p.replacement);
    forall k | k in w && w[k] != original[k]
      ensures exists i :: 0 <= i < |all| && InRange(k, all[i].address, |all[i].expected|)
    {
      if InRange(k, p.address, |p.replacement|) {
        assert all[|patches|] == p;
      } else {
        var i :| 0 <= i < |patches| && InRange(k, patches[i].address, |patches[i].expected|);
        assert all[i] == patches[i];
      }
    }
  }

  /** Putting a patch's expected bytes back confines the difference to the patches before it, whatever
      they overlap. */
  lemma RestoreConfined(original: Memory, m: Memory, patches: seq<Patch>)
    requires |patches| > 0 && Confined(original, m, patches)
    requires forall i :: 0 <= i < |patches| ==> Valid(original, patches[i])
    ensures var p := patches[|patches| - 1];
      Confined(original, Written(m, p.address, p.expected), patches[..|patches| - 1])
  {
    var front, p := patches[..|patches| - 1], patches[|patches| - 1];
    var w := Written(m, p.address, p.expected);
    assert Valid(original, p);
    forall k | k in w && InRange(k, p.address, |p.expected|)
      ensures w[k] == original[k]
    {
      assert original[p.address + (k - p.address)] == p.expected[k - p.address];
    }
    forall k | k in w && w[k] != original[k]
      ensures exists i :: 0 <= i < |front| && InRange(k, front[i].address, |front[i].expected|)
    {
      var i :| 0 <= i < |patches| && InRange(k, patches[i].address, |patches[i].expected|);
      assert front[i] == patches[i];
    }
  }

  lemma ConfinedToNothing(original: Memory, m: Memory)
    requires Confined(original, m, [])
    ensures m == original
  {
  }

  class Patcher {
    var memory: Memory
    var applied: seq<Patch>
    var installed: bool
    var failed: bool
    /** Memory before installation. */
    ghost var original: Memory

    ghost predicate Consistent()
      reads this
    {
      && Confined(original, memory, applied)
      && (forall i :: 0 <= i < |applied| ==> Valid(original, applied[i]))
      && (!installed ==> applied == [])
    }

    constructor (memory: Memory)
      ensures Consistent() && !installed && !failed && this.memory == original == memory
    {
      this.memory, original := memory, memory;
      applied, installed, failed := [], false, false;
    }

    method Validate(patches: seq<Patch>) returns (ok: bool)
      ensures ok <==> forall i :: 0 <= i < |patches| ==> Valid(memory, patches[i])
    {
      for i := 0 to |patches|
        invariant forall k :: 0 <= k < i ==> Valid(memory, patches[k])
      {
        if !Valid(memory, patches[i]) {
          return false;
        }
      }
      return true;
    }

    /** Undo in reverse order; writing back the expected bytes is assumed to succeed. */
    method RestoreApplied()
      requires Confined(original, memory, applied) && forall i :: 0 <= i < |applied| ==> Valid(original, applied[i])
      modifies this`memory, this`applied
      ensures memory == original && applied == []
    {
      while |applied| > 0
        invariant Confined(original, memory, applied)
        invariant forall i :: 0 <= i < |applied| ==> Valid(original, applied[i])
        decreases |applied|
      {
        RestoreConfined(original, memory, applied);
        var p := applied[|applied| - 1];
        memory := Written(memory, p.address, p.expected);
        applied := applied[..|applied| - 1];
      }
      ConfinedToNothing(original, memory);
    }

    /** `Install`: too late once the engine has allocated its projectiles; every expected byte is checked before
        any write; a write that fails leaves its bytes alone.  Either all patches are in place, or memory is what it was. */
    method Install(patches: seq<Patch>, poolAllocated: bool, succeeds: nat -> bool)
      requires Consistent()
      modifies this
      ensures Consistent() && original == old(original)
      ensures old(installed) || old(failed) ==> memory == old(memory) && installed == old(installed) && failed == old(failed)
      ensures !old(installed) && !old(failed) ==>
        && (installed <==>
            && !poolAllocated
            && (forall i :: 0 <= i < |patches| ==> Valid(old(memory), patches[i]))
            && (forall i :: 0 <= i < |patches| ==> succeeds(i)))
        && failed == !installed
        && memory == if installed then Patched(old(memory), patches) else old(memory)
    {
      if installed || failed {
        return;
      }
      ConfinedToNothing(original, memory);
      if poolAllocated {
        failed := true;
        return;
      }
      var ok := Validate(patches);
      if !ok {
        failed := true;
        return;
      }
      hide Valid, Written;
      for n := 0 to |patches|
        invariant applied == patches[..n] && !installed && !failed && original == old(original) == old(memory)
        invariant Confined(original, memory, applied) && memory == Patched(original, patches[..n])
        invariant forall i :: 0 <= i < n ==> succeeds(i)
      {
        if !succeeds(n) {
          RestoreApplied();
          failed := true;
          return;
        }
        WriteConfined(original, memory, applied, patches[n]);
        assert patches[..n + 1][..n] == patches[..n] && patches[..n + 1] == patches[..n] + [patches[n]];
        memory := Written(memory, patches[n].address, patches[n].replacement);
        applied := applied + [patches[n]];
      }
      assert patches[..|patches|] == patches;
      installed := true;
    }

    /** `Uninstall` after `Install` is the identity on memory. */
    method Uninstall()
      requires Consistent()
      modifies this
      ensures Consistent() && !installed && original == old(original)
      ensures memory == if old(installed) then original else old(memory)
    {
      if !installed {
        return;
      }
      RestoreApplied();
      installed := false;
    }
  }

  /** Round-robin slots: true means free. */
  class SlotPool {
    const free: array<bool>
    var next: nat

    ghost predicate Ready()
      reads this
    {
      next < free.Length
    }

    constructor (size: nat)
      requires size > 0
      ensures Ready() && fresh(free) && free.Length == size && next == 0 && forall i :: 0 <= i < size ==> free[i]
    {
      free := new bool[size](i => true);
      next := 0;
    }

    /** The slot d places after `next`, going round. */
    function Around(d: nat): (i: nat)
      reads this
      requires Ready() && d < free.Length
      ensures i < free.Length
    {
      if next + d < free.Length then next + d else next + d - free.Length
    }

    /** Null exactly when no slot is free; otherwise the first free slot in round-robin order, which was
        never live, and the next search starts behind it. */
    method Allocate() returns (found: bool, slot: nat)
      requires Ready()
      modifies this, free
      ensures Ready()
      ensures found <==> exists i :: 0 <= i < free.Length && old(free[i])
      ensures !found ==> free[..] == old(free[..]) && next == old(next)
      ensures found ==>
        && slot < free.Length && old(free[slot]) && free[..] == old(free[..])[slot := false]
        && next == (if slot + 1 == free.Length then 0 else slot + 1)
        && exists d: nat :: d < free.Length && slot == old(Around(d)) && forall e: nat :: e < d ==> !old(free[Around(e)])
    {
      slot := next;
      var checked := 0;
      while checked < free.Length
        invariant 0 <= checked <= free.Length && free[..] == old(free[..]) && next == old(next)
        invariant checked < free.Length ==> slot == Around(checked)
        invariant forall e: nat :: e < checked ==> !free[Around(e)]
      {
        if free[slot] {
          found := true;
          free[slot] := false;
          next := if slot + 1 == free.Length then 0 else slot + 1;
          return;
        }
        slot := if slot + 1 == free.Length then 0 else slot + 1;
        checked := checked + 1;
      }
      forall i: nat | i < free.Length ensures !free[i] {
        var d: nat := if i >= next then i - next else i + free.Length - next;
        assert Around(d) == i;
      }
      found, slot := false, 0;
    }
  }
}
