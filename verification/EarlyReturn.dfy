/** int g; int f(int a) { if (a > 9) { return a + 1; } g = a; }
    The only return is not in the last block, so nothing gives its operand the
    return register, and parameter a has x0: f returns a. */
module EarlyReturn {
  import opened Words
  import opened Registers
  import opened LiveRanges
  import opened RegMachine
  import opened RegisterAllocation

  /** The slot of the parameter, and the global. */
  datatype Cells = Cells(a: int, g: int)

  const STORE_A: nat := 1
  const LOAD_A: nat := 2
  const NOT_ABOVE: nat := 3
  const BRANCH: nat := 4
  const ADD: nat := 5
  const STORE_G: nat := 6

  /** The last block begins at 7. */
  const CODE: seq<MInstr> := [
    MInstr(STORE_A, false, [Parameter(1)]),
    MInstr(LOAD_A, true, [VReg(2, 32)]),
    MInstr(NOT_ABOVE, true, [VReg(3, 32), VReg(2, 32), Imm(9, 32)]),
    MInstr(BRANCH, false, [VReg(3, 32)]),
    MInstr(LOAD_A, true, [VReg(4, 32)]),
    MInstr(ADD, true, [VReg(5, 32), VReg(4, 32), Imm(1, 32)]),
    MInstr(RET, false, [VReg(5, 32)]),
    MInstr(LOAD_A, true, [VReg(6, 32)]),
    MInstr(STORE_G, false, [VReg(6, 32)])]

  const F: MFunction := MFunction([Param(1, 32)], CODE, 7)

  function Compute(opcode: nat, args: seq<int>, m: Cells): int {
    if opcode == NOT_ABOVE && |args| == 2 then if args[0] <= args[1] then 1 else 0
    else if opcode == ADD && |args| == 2 then args[0] + args[1]
    else m.a
  }

  function Update(opcode: nat, args: seq<int>, m: Cells): Cells {
    if args == [] then m
    else if opcode == STORE_A then m.(a := args[0])
    else if opcode == STORE_G then m.(g := args[0])
    else m
  }

  function Goes(opcode: nat, args: seq<int>): Option<nat> {
    if opcode == BRANCH && args != [] && args[0] != 0 then Some(7) else None
  }

  const SEM: Semantics<Cells> := Semantics(Compute, Update, Goes)

  // ---------------------------------------------------------------------
  // What the pass sees
  // ---------------------------------------------------------------------

  lemma OnlyTheParameter()
    ensures ParamRegs(F.params) == map[1 := W0] && PreAllocated(F) == map[1 := W0]
  {
    assert F.params[..0] == [] && ParamRegs([]) == map[];
    var params := ParamRegs(F.params);
    assert params == map[1 := W0];
    var last := CODE[7..];
    assert |last| == 2 && last[0] == CODE[7] && last[1] == CODE[8];
    forall v
      ensures v in ClaimReturns(params, last) <==> v in params
      ensures v in params ==> ClaimReturns(params, last)[v] == params[v]
    {
      Unclaimed(params, last, v);
    }
  }

  lemma Widths(v: nat, at: nat)
    requires (v, at) in {(2, 1), (3, 2), (4, 4), (5, 5)}
    ensures v in WidthsIn(F) && WidthsIn(F)[v] == 32
  {
    OnlyTheParameter();
    assert UsedReg(CODE[at].operands[0]) == Some(v);
    assert Mentions(CODE, at, v);
    WidthOf(F, at, v, 32);
  }

  lemma ParameterWidth()
    ensures 1 in RangesIn(F) && WidthsIn(F)[1] == 32
  {
    OnlyTheParameter();
    ParamsAreRanged(F.params, Uses(CODE), 1);
  }

  lemma Conforms()
    ensures ConventionFits(F) && ReturnIsTaken(F) && DefinesNoReturn(F)
  {
    OnlyTheParameter();
    ParameterWidth();
    assert Parent(PreAllocated(F)[1]) == X0;
    var last := CODE[7..];
    assert |last| == 2 && last[0] == CODE[7] && last[1] == CODE[8];
    hide PreAllocated, WidthsIn, RangesOf, ParamRegs;
  }

  // ---------------------------------------------------------------------
  // The run
  // ---------------------------------------------------------------------

  lemma NoInputs(vregs: map<nat, int>)
    ensures VReadAll([], vregs) == Some([])
  {
  }

  lemma OneInput(o: MOperand, vregs: map<nat, int>)
    requires VRead(o, vregs).Some?
    ensures VReadAll([o], vregs) == Some([VRead(o, vregs).value])
  {
    assert [o][1..] == [];
    NoInputs(vregs);
    assert [VRead(o, vregs).value] + [] == [VRead(o, vregs).value];
  }

  lemma TwoInputs(o: MOperand, o': MOperand, vregs: map<nat, int>)
    requires VRead(o, vregs).Some? && VRead(o', vregs).Some?
    ensures VReadAll([o, o'], vregs) == Some([VRead(o, vregs).value, VRead(o', vregs).value])
  {
    assert [o, o'][1..] == [o'];
    OneInput(o', vregs);
    var x, y := VRead(o, vregs).value, VRead(o', vregs).value;
    assert [x] + [y] == [x, y];
  }

  lemma InputsAre(vregs: map<nat, int>)
    requires 2 in vregs
    ensures Inputs(CODE[2]) == [VReg(2, 32), Imm(9, 32)] && Inputs(CODE[3]) == [VReg(3, 32)]
    ensures Inputs(CODE[5]) == [VReg(4, 32), Imm(1, 32)] && Inputs(CODE[0]) == [Parameter(1)]
    ensures Inputs(CODE[1]) == [] && Inputs(CODE[4]) == []
  {
  }

  lemma RunStep(width: map<nat, nat>, c: VConfig<Cells>, c1: VConfig<Cells>, n: nat)
    requires VStep(CODE, width, SEM, c) == Some(c1)
    ensures VRun(CODE, width, SEM, c, n + 1) == VRun(CODE, width, SEM, c1, n)
  {
  }

  lemma RunEnd(width: map<nat, nat>, c: VConfig<Cells>)
    ensures VRun(CODE, width, SEM, c, 0) == Some(c)
  {
  }

  /** An instruction that defines v and goes on. */
  lemma Defines(width: map<nat, nat>, c: VConfig<Cells>, v: nat, args: seq<int>)
    requires c.pc in {1, 2, 4, 5} && CODE[c.pc].operands[0] == VReg(v, 32) && v in width && width[v] == 32
    requires VReadAll(Inputs(CODE[c.pc]), c.vregs) == Some(args)
    requires 0 <= Compute(CODE[c.pc].opcode, args, c.mem) < TWO_TO_THE_32
    ensures VStep(CODE, width, SEM, c)
            == Some(VConfig(c.pc + 1, c.vregs[v := Compute(CODE[c.pc].opcode, args, c.mem)], c.mem))
  {
    hide LowUnsigned, VReadAll, Inputs;
    ThirtyTwoBits(Compute(CODE[c.pc].opcode, args, c.mem));
  }

  lemma SourceRun(width: map<nat, nat>, a: int, m: Cells)
    requires 9 < a && a + 1 < TWO_TO_THE_32
    requires forall v :: v in {2, 3, 4, 5} ==> v in width && width[v] == 32
    ensures var c := VRun(CODE, width, SEM, VConfig(0, map[1 := a], m), 6);
            c.Some? && c.value.pc == 6 && 5 in c.value.vregs && c.value.vregs[5] == a + 1
  {
    hide VRun, VStep, VReadAll, Compute;
    var c0 := VConfig(0, map[1 := a], m);
    var c1 := VConfig(1, c0.vregs, m.(a := a));
    var c2 := VConfig(2, c1.vregs[2 := a], c1.mem);
    var c3 := VConfig(3, c2.vregs[3 := 0], c1.mem);
    var c4 := VConfig(4, c3.vregs, c1.mem);
    var c5 := VConfig(5, c4.vregs[4 := a], c1.mem);
    var c6 := VConfig(6, c5.vregs[5 := a + 1], c1.mem);
    InputsAre(c2.vregs);
    Computes(a, c1.mem);
    NoInputs(c1.vregs);
    NoInputs(c4.vregs);
    OneInput(Parameter(1), c0.vregs);
    TwoInputs(VReg(2, 32), Imm(9, 32), c2.vregs);
    OneInput(VReg(3, 32), c3.vregs);
    TwoInputs(VReg(4, 32), Imm(1, 32), c5.vregs);
    Plain(width, c0, c3);
    Defines(width, c1, 2, []);
    Defines(width, c2, 3, [a, 9]);
    Defines(width, c4, 4, []);
    Defines(width, c5, 5, [a, 1]);
    RunStep(width, c0, c1, 5);
    RunStep(width, c1, c2, 4);
    RunStep(width, c2, c3, 3);
    RunStep(width, c3, c4, 2);
    RunStep(width, c4, c5, 1);
    RunStep(width, c5, c6, 0);
    RunEnd(width, c6);
  }

  lemma Computes(a: int, m: Cells)
    requires m.a == a > 9
    ensures Compute(LOAD_A, [], m) == a && Compute(NOT_ABOVE, [a, 9], m) == 0 && Compute(ADD, [a, 1], m) == a + 1
  {
  }

  /** The store of the parameter, and the branch that is not taken. */
  lemma Plain(width: map<nat, nat>, c0: VConfig<Cells>, c3: VConfig<Cells>)
    requires c0.pc == 0 && VReadAll([Parameter(1)], c0.vregs).Some? && |VReadAll([Parameter(1)], c0.vregs).value| == 1
    requires c3.pc == 3 && VReadAll([VReg(3, 32)], c3.vregs) == Some([0])
    ensures VStep(CODE, width, SEM, c0)
            == Some(VConfig(1, c0.vregs, c0.mem.(a := VReadAll([Parameter(1)], c0.vregs).value[0])))
    ensures VStep(CODE, width, SEM, c3) == Some(VConfig(4, c3.vregs, c3.mem))
  {
    hide VReadAll;
  }

  /** Both machines stand at the return of a + 1, and x0 holds a. */
  ghost predicate Loses(c: Option<VConfig<Cells>>, p: Option<PConfig<Cells>>, a: int) {
    && c.Some? && p.Some? && c.value.pc == p.value.pc == 6 && CODE[6].opcode == RET
    && VRead(CODE[6].operands[0], c.value.vregs) == Some(a + 1)
    && RegValue(p.value.regs, W0) == a
  }

  /** The main result: for every a above 9 and whatever allocation the pass
      finds, the source returns a + 1, and at that return x0 holds a. */
  lemma EarlyReturnLosesValue(regOf: map<nat, nat>, a: int, p0: PConfig<Cells>)
    requires Allocation(F, regOf) && 9 < a && a + 1 < TWO_TO_THE_32
    requires Entry0(F, VConfig(0, map[1 := a], p0.mem), p0)
    ensures Loses(VRun(CODE, WidthsIn(F), SEM, VConfig(0, map[1 := a], p0.mem), 6),
                  PRun(Rewritten(CODE, regOf), SEM, p0, 6), a)
  {
    Conforms();
    OnlyTheParameter();
    Widths(2, 1);
    Widths(3, 2);
    Widths(4, 4);
    Widths(5, 5);
    hide Allocation, ConventionFits, ReturnIsTaken, DefinesNoReturn, WidthsIn, VRun, PRun, Rewritten, LowUnsigned,
      ParamRegs, PreAllocated, Entry0;
    var c0 := VConfig(0, map[1 := a], p0.mem);
    EntryInRegisters(F, c0, p0);
    assert RegValue(p0.regs, W0) == c0.vregs[1];
    SourceRun(WidthsIn(F), a, p0.mem);
    AllocatedCodeRuns(F, regOf, SEM, c0, p0, 6);
    ReturnRegisterStays(F, regOf, SEM, p0, 6);
  }
}
