/** The AArch64 register file as the back end sees it: 32-bit registers are
    parts of 64-bit ones, and the ABI hands out the 64-bit ones. */
module Registers {
  import opened Words

  const W0 := 1
  const X0 := 33
  const SP := 65
  const COUNT := 67

  datatype TargetRegister = TargetRegister(id: nat, width: nat, subRegs: seq<nat>)

  /** The i-th entry of the register table. */
  function RegisterAt(i: nat): TargetRegister
    requires i < COUNT
  {
    if i < 32 then TargetRegister(W0 + i, 32, [])
    else if i < 64 then TargetRegister(X0 + i - 32, 64, [W0 + i - 32])
    else TargetRegister(SP + i - 64, 64, [])
  }

  class RegisterInfo {
    var registers: array<TargetRegister>

    ghost predicate Valid()
      reads this, registers
    {
      registers.Length == COUNT && forall i :: 0 <= i < COUNT ==> registers[i] == RegisterAt(i)
    }

    constructor ()
      ensures Valid() && fresh(registers)
    {
      registers := new TargetRegister[COUNT](i => if 0 <= i < COUNT then RegisterAt(i) else RegisterAt(0));
    }

    function GetRegisterByID(id: nat): (r: TargetRegister)
      reads this, registers
      requires Valid() && 1 <= id < COUNT
      ensures r.id == id
    {
      registers[id - 1]
    }

    /** The register that has the given one as a part, if there is one. */
    method GetParentReg(id: nat) returns (parent: Option<TargetRegister>)
      requires Valid()
      ensures parent == if IsW(id) then Some(RegisterAt(id + 31)) else None
    {
      for i := 0 to registers.Length
        invariant IsW(id) ==> i <= id + 31
      {
        var subRegs := registers[i].subRegs;
        assert IsW(id) && i == id + 31 ==> subRegs == [id];
        for j := 0 to |subRegs|
          invariant subRegs == [id] ==> j == 0
        {
          if subRegs[j] == id {
            return Some(registers[i]);
          }
        }
      }
      return None;
    }
  }

  // ---------------------------------------------------------------------
  // Aliasing
  // ---------------------------------------------------------------------

  predicate IsX(r: nat) { X0 <= r < X0 + 32 }

  predicate IsW(r: nat) { W0 <= r < X0 }

  /** The 64-bit register that r is, or is a part of. */
  function Parent(r: nat): (p: nat) {
    if IsW(r) then r + 32 else r
  }

  function Width(r: nat): nat { if IsW(r) then 32 else 64 }

  /** Some bit belongs to both. */
  predicate Aliases(r: nat, s: nat)
    requires 1 <= r <= COUNT && 1 <= s <= COUNT
  {
    r == s || r in RegisterAt(s - 1).subRegs || s in RegisterAt(r - 1).subRegs
  }

  lemma AliasingIsSharingAParent(r: nat, s: nat)
    requires (IsX(r) || IsW(r)) && (IsX(s) || IsW(s))
    ensures Aliases(r, s) <==> Parent(r) == Parent(s)
  {
  }

  // ---------------------------------------------------------------------
  // The calling convention
  // ---------------------------------------------------------------------

  function Range(lo: nat, hi: nat): (s: seq<nat>)
    requires lo <= hi
    ensures |s| == hi - lo && forall i :: 0 <= i < |s| ==> s[i] == lo + i
  {
    seq(hi - lo, i => lo + i)
  }

  lemma RangeHas(lo: nat, hi: nat)
    requires lo <= hi
    ensures forall r :: r in Range(lo, hi) <==> lo <= r < hi
  {
    forall r | lo <= r < hi
      ensures r in Range(lo, hi)
    {
      assert Range(lo, hi)[r - lo] == r;
    }
  }

  const ARGUMENTS: seq<nat> := Range(X0, X0 + 8)

  const RETURNS: seq<nat> := Range(X0, X0 + 8)

  /** x0 to x7 and x9 to x15. */
  const CALLER_SAVED: seq<nat> := Range(X0, X0 + 8) + Range(X0 + 9, X0 + 16)

  /** x19 to x28. */
  const CALLEE_SAVED: seq<nat> := Range(X0 + 19, X0 + 29)

  predicate NoDuplicates(s: seq<nat>) {
    forall i, j :: 0 <= i < j < |s| ==> s[i] != s[j]
  }

  /** The register lists are those of the procedure call standard: nothing else is
      handed out, neither x8 and x16 to x18 nor the frame pointer x29, the link
      register x30 and the stack pointer. */
  lemma PoolsAreDistinct()
    ensures |ARGUMENTS| == 8 && forall k :: 0 <= k < 8 ==> ARGUMENTS[k] == X0 + k
    ensures forall r :: r in CALLER_SAVED <==> X0 <= r <= X0 + 7 || X0 + 9 <= r <= X0 + 15
    ensures forall r :: r in CALLEE_SAVED <==> X0 + 19 <= r <= X0 + 28
    ensures NoDuplicates(CALLER_SAVED + CALLEE_SAVED)
    ensures forall r :: r in CALLER_SAVED + CALLEE_SAVED ==> IsX(r)
    ensures forall r :: r in ARGUMENTS ==> r in CALLER_SAVED && r !in CALLEE_SAVED
  {
    assert forall i :: 0 <= i < 8 ==> CALLER_SAVED[i] == ARGUMENTS[i];
    RangeHas(X0, X0 + 8);
    RangeHas(X0 + 9, X0 + 16);
    RangeHas(X0 + 19, X0 + 29);
  }
}
