/** int g; int f(int a, int b) { g = b; return 3; }
    Parameter b has the number 3, so the 3 that is returned claims the return
    register for b, and f stores a.  The move of 3 into x0 has no virtual
    operand and is left out. */
module ReturnedNumber {
  import opened Words
  import opened Registers
  import opened LiveRanges
  import opened RegMachine
  import opened RegisterAllocation

  /** The slots of both parameters, and the global. */
  datatype Cells = Cells(a: int, b: int, g: int)

  const STORE_A: nat := 1
  const STORE_B: nat := 2
  const LOAD_B: nat := 3
  const STORE_G: nat := 4

  const CODE: seq<MInstr> := [
    MInstr(STORE_A, false, [Parameter(1)]),
    MInstr(STORE_B, false, [Parameter(3)]),
    MInstr(LOAD_B, true, [VReg(4, 32)]),
    MInstr(STORE_G, false, [VReg(4, 32)]),
    MInstr(RET, false, [Imm(3, 32)])]

  const F: MFunction := MFunction([Param(1, 32), Param(3, 32)], CODE, 0)

  function Update(opcode: nat, args: seq<int>, m: Cells): Cells {
    if args == [] then m
    else if opcode == STORE_A then m.(a := args[0])
    else if opcode == STORE_B then m.(b := args[0])
    else m.(g := args[0])
  }

  function Compute(opcode: nat, args: seq<int>, m: Cells): int { m.b }

  const SEM: Semantics<Cells> := Semantics(Compute, Update, (opcode: nat, args: seq<int>) => None)

  // ---------------------------------------------------------------------
  // What the pass sees
  // ---------------------------------------------------------------------

  lemma BothInOneRegister()
    ensures ParamRegs(F.params) == map[1 := W0, 3 := W0 + 1]
    ensures PreAllocated(F) == map[1 := W0, 3 := W0]
  {
    var ps := F.params;
    assert ps[..1] == [Param(1, 32)] && ps[..1][..0] == [];
    assert ParamRegs([]) == map[];
    assert ParamRegs(ps[..1]) == map[1 := W0];
    var params := ParamRegs(ps);
    assert params == map[1 := W0, 3 := W0 + 1];
    assert CODE[0..] == CODE;
    var claimed := Claim(params, CODE[4]);
    forall v
      ensures v in ClaimReturns(claimed, CODE[..4]) <==> v in claimed
      ensures v in claimed ==> ClaimReturns(claimed, CODE[..4])[v] == claimed[v]
    {
      Unclaimed(claimed, CODE[..4], v);
    }
    assert ClaimReturns(params, CODE) == claimed;
  }

  lemma LoadedWidth()
    ensures 4 in RangesIn(F) && 4 in WidthsIn(F) && WidthsIn(F)[4] == 32
  {
    BothInOneRegister();
    assert UsedReg(CODE[2].operands[0]) == Some(4);
    assert Mentions(CODE, 2, 4);
    WidthOf(F, 2, 4, 32);
  }

  // ---------------------------------------------------------------------
  // The two runs
  // ---------------------------------------------------------------------

  lemma VStore(width: map<nat, nat>, c: VConfig<Cells>, o: MOperand)
    requires c.pc in {0, 1, 3} && CODE[c.pc].operands == [o] && VRead(o, c.vregs).Some?
    ensures VStep(CODE, width, SEM, c)
            == Some(VConfig(c.pc + 1, c.vregs, Update(CODE[c.pc].opcode, [VRead(o, c.vregs).value], c.mem)))
  {
    assert [o][1..] == [];
    assert VReadAll([], c.vregs) == Some([]) && [VRead(o, c.vregs).value] + [] == [VRead(o, c.vregs).value];
    assert VReadAll([o], c.vregs) == Some([VRead(o, c.vregs).value]);
  }

  lemma VRunStep(width: map<nat, nat>, c: VConfig<Cells>, c1: VConfig<Cells>, n: nat)
    requires VStep(CODE, width, SEM, c) == Some(c1)
    ensures VRun(CODE, width, SEM, c, n + 1) == VRun(CODE, width, SEM, c1, n)
  {
  }

  lemma VirtualRun(width: map<nat, nat>, a: int, b: int, m: Cells)
    requires 4 in width && width[4] == 32 && 0 <= b < TWO_TO_THE_32
    ensures var c := VRun(CODE, width, SEM, VConfig(0, map[1 := a, 3 := b], m), 4);
            c.Some? && c.value.mem.g == b
  {
    hide VStep, VRun;
    var c0 := VConfig(0, map[1 := a, 3 := b], m);
    var c1 := VConfig(1, c0.vregs, m.(a := a));
    var c2 := VConfig(2, c0.vregs, c1.mem.(b := b));
    var c3 := VConfig(3, c0.vregs[4 := b], c2.mem);
    var c4 := VConfig(4, c3.vregs, c3.mem.(g := b));
    VStore(width, c0, Parameter(1));
    VStore(width, c1, Parameter(3));
    VLoad(width, c2);
    VStore(width, c3, VReg(4, 32));
    VRunStep(width, c0, c1, 3);
    VRunStep(width, c1, c2, 2);
    VRunStep(width, c2, c3, 1);
    VRunStep(width, c3, c4, 0);
    VDone(width, c4);
  }

  lemma VDone(width: map<nat, nat>, c: VConfig<Cells>)
    ensures VRun(CODE, width, SEM, c, 0) == Some(c)
  {
  }

  lemma VLoad(width: map<nat, nat>, c: VConfig<Cells>)
    requires c.pc == 2 && 4 in width && width[4] == 32 && 0 <= c.mem.b < TWO_TO_THE_32
    ensures VStep(CODE, width, SEM, c) == Some(VConfig(3, c.vregs[4 := c.mem.b], c.mem))
  {
    ThirtyTwoBits(c.mem.b);
    assert CODE[2].operands[1..] == [];
    assert VReadAll(Inputs(CODE[2]), c.vregs) == Some([]);
  }

  lemma PStore(regOf: map<nat, nat>, p: PConfig<Cells>, o: MOperand)
    requires p.pc in {0, 1, 3} && CODE[p.pc].operands == [o] && PRead(RewriteOperand(o, regOf), p.regs).Some?
    ensures PStep(Rewritten(CODE, regOf), SEM, p)
            == Some(PConfig(p.pc + 1, p.regs,
              Update(CODE[p.pc].opcode, [PRead(RewriteOperand(o, regOf), p.regs).value], p.mem)))
  {
    var o' := RewriteOperand(o, regOf);
    assert RewriteInstr(CODE[p.pc], regOf).operands == [o'];
    assert [o'][1..] == [];
    assert PReadAll([], p.regs) == Some([]) && [PRead(o', p.regs).value] + [] == [PRead(o', p.regs).value];
    assert PReadAll([o'], p.regs) == Some([PRead(o', p.regs).value]);
  }

  lemma PLoad(regOf: map<nat, nat>, p: PConfig<Cells>)
    requires p.pc == 2 && 4 in regOf && Width(regOf[4]) == 32 && 0 <= p.mem.b < TWO_TO_THE_32
    ensures PStep(Rewritten(CODE, regOf), SEM, p) == Some(PConfig(3, p.regs[Parent(regOf[4]) := p.mem.b], p.mem))
  {
    ThirtyTwoBits(p.mem.b);
    var i := RewriteInstr(CODE[2], regOf);
    assert i.operands == [Phys(regOf[4])] && i.operands[1..] == [];
    assert PReadAll(Inputs(i), p.regs) == Some([]);
  }

  lemma PRunStep(regOf: map<nat, nat>, p: PConfig<Cells>, p1: PConfig<Cells>, n: nat)
    requires PStep(Rewritten(CODE, regOf), SEM, p) == Some(p1)
    ensures PRun(Rewritten(CODE, regOf), SEM, p, n + 1) == PRun(Rewritten(CODE, regOf), SEM, p1, n)
  {
  }

  lemma PDone(regOf: map<nat, nat>, p: PConfig<Cells>)
    ensures PRun(Rewritten(CODE, regOf), SEM, p, 0) == Some(p)
  {
  }

  lemma PhysicalRun(regOf: map<nat, nat>, a: int, p0: PConfig<Cells>)
    requires 1 in regOf && 3 in regOf && 4 in regOf && regOf[1] == regOf[3] == W0 && Width(regOf[4]) == 32
    requires p0.pc == 0 && RegValue(p0.regs, W0) == a && 0 <= a < TWO_TO_THE_32
    ensures var p := PRun(Rewritten(CODE, regOf), SEM, p0, 4);
            p.Some? && p.value.mem.g == a
  {
    hide PStep, PRun, Rewritten, LowUnsigned, Parent;
    var p1 := PConfig(1, p0.regs, p0.mem.(a := a));
    var p2 := PConfig(2, p0.regs, p1.mem.(b := a));
    var p3 := PConfig(3, p0.regs[Parent(regOf[4]) := a], p2.mem);
    var p4 := PConfig(4, p3.regs, p3.mem.(g := a));
    ThirtyTwoBits(a);
    PStore(regOf, p0, Parameter(1));
    PStore(regOf, p1, Parameter(3));
    PLoad(regOf, p2);
    PStore(regOf, p3, VReg(4, 32));
    PRunStep(regOf, p0, p1, 3);
    PRunStep(regOf, p1, p2, 2);
    PRunStep(regOf, p2, p3, 1);
    PRunStep(regOf, p3, p4, 0);
    PDone(regOf, p4);
  }

  /** Whatever allocation the pass finds, the code on virtual registers stores
      b and the allocated code stores a. */
  lemma ReturnedNumberMovesParameter(regOf: map<nat, nat>, a: int, b: int, p0: PConfig<Cells>)
    requires Allocation(F, regOf) && 0 <= a < TWO_TO_THE_32 && 0 <= b < TWO_TO_THE_32
    requires Entry0(F, VConfig(0, map[1 := a, 3 := b], p0.mem), p0)
    ensures !NoParameterClaimed(F)
    ensures var c, p := VRun(CODE, WidthsIn(F), SEM, VConfig(0, map[1 := a, 3 := b], p0.mem), 4),
                        PRun(Rewritten(CODE, regOf), SEM, p0, 4);
            c.Some? && p.Some? && c.value.mem.g == b && p.value.mem.g == a
  {
    BothInOneRegister();
    LoadedWidth();
    ParametersStayExactly(F);
    EntryInRegisters(F, VConfig(0, map[1 := a, 3 := b], p0.mem), p0);
    hide WidthsIn, RangesIn, PreAllocated, ParamRegs, NoParameterClaimed, VRun, PRun, Rewritten, LowUnsigned, Entry0;
    assert 3 in PreAllocated(F) && PreAllocated(F)[3] != ParamRegs(F.params)[3];
    assert regOf[1] == W0 && regOf[3] == W0 && Width(regOf[4]) == 32;
    assert RegValue(p0.regs, W0) == map[1 := a, 3 := b][1];
    VirtualRun(WidthsIn(F), a, b, p0.mem);
    PhysicalRun(regOf, a, p0);
  }
}
