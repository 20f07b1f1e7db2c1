/** The machine before and after register allocation.  What instructions
    compute is left open: every theorem holds for all semantics. */
module RegMachine {
  import opened Words
  import opened Registers
  import opened LiveRanges

  /** The value an instruction defines, the memory it leaves, and where it
      jumps, as functions of what it reads. */
  datatype Semantics<!M> = Semantics(
    compute: (nat, seq<int>, M) -> int,
    update: (nat, seq<int>, M) -> M,
    target: (nat, seq<int>) -> Option<nat>)

  datatype VConfig<M> = VConfig(pc: nat, vregs: map<nat, int>, mem: M)

  datatype PConfig<M> = PConfig(pc: nat, regs: map<nat, int>, mem: M)

  function VRead(o: MOperand, vregs: map<nat, int>): Option<int> {
    match o
    case VReg(v, _) => if v in vregs then Some(vregs[v]) else None
    case Parameter(v) => if v in vregs then Some(vregs[v]) else None
    case Memory(v, offset, _) => if v in vregs then Some(vregs[v] + offset) else None
    case Imm(n, _) => Some(n)
    case _ => None
  }

  /** Registers are 64 bits wide; w registers are their low halves. */
  function RegValue(regs: map<nat, int>, r: nat): int {
    LowUnsigned(Get(regs, Parent(r)), Width(r))
  }

  function PRead(o: MOperand, regs: map<nat, int>): Option<int> {
    match o
    case Phys(r) => Some(RegValue(regs, r))
    case PhysMemory(r, offset) => Some(RegValue(regs, r) + offset)
    case Imm(n, _) => Some(n)
    case _ => None
  }

  /** The operands an instruction reads. */
  function Inputs(i: MInstr): seq<MOperand> {
    if i.defines && i.operands != [] then i.operands[1..] else i.operands
  }

  function VReadAll(os: seq<MOperand>, vregs: map<nat, int>): Option<seq<int>> {
    if os == [] then Some([])
    else
      var first, rest := VRead(os[0], vregs), VReadAll(os[1..], vregs);
      if first.Some? && rest.Some? then Some([first.value] + rest.value) else None
  }

  function PReadAll(os: seq<MOperand>, regs: map<nat, int>): Option<seq<int>> {
    if os == [] then Some([])
    else
      var first, rest := PRead(os[0], regs), PReadAll(os[1..], regs);
      if first.Some? && rest.Some? then Some([first.value] + rest.value) else None
  }

  function Target<M>(sem: Semantics<M>, i: MInstr, args: seq<int>, pc: nat): nat {
    match sem.target(i.opcode, args)
    case None => pc + 1
    case Some(t) => t
  }

  /** One step on virtual registers.  Reading a register without a value is
      stuck, and a jump back drops all of them: the code must not carry a
      virtual register around a loop. */
  function VStep<M>(code: seq<MInstr>, width: map<nat, nat>, sem: Semantics<M>, c: VConfig<M>): Option<VConfig<M>> {
    if c.pc >= |code| || code[c.pc].opcode == RET then None
    else
      var i := code[c.pc];
      match VReadAll(Inputs(i), c.vregs)
      case None => None
      case Some(args) =>
        var mem, next := sem.update(i.opcode, args, c.mem), Target(sem, i, args, c.pc);
        var result := sem.compute(i.opcode, args, c.mem);
        if !i.defines then Some(VConfig(next, if next <= c.pc then map[] else c.vregs, mem))
        else if i.operands == [] || !i.operands[0].VReg? || i.operands[0].v !in width then None
        else
          var v := i.operands[0].v;
          Some(VConfig(next, if next <= c.pc then map[] else c.vregs[v := LowUnsigned(result, width[v])], mem))
  }

  /** One step on physical registers; writing a w register clears the upper
      half. */
  function PStep<M>(code: seq<MInstr>, sem: Semantics<M>, p: PConfig<M>): Option<PConfig<M>> {
    if p.pc >= |code| || code[p.pc].opcode == RET then None
    else
      var i := code[p.pc];
      match PReadAll(Inputs(i), p.regs)
      case None => None
      case Some(args) =>
        var mem, next := sem.update(i.opcode, args, p.mem), Target(sem, i, args, p.pc);
        var result := sem.compute(i.opcode, args, p.mem);
        if !i.defines then Some(PConfig(next, p.regs, mem))
        else if i.operands == [] || !i.operands[0].Phys? then None
        else
          var r := i.operands[0].r;
          Some(PConfig(next, p.regs[Parent(r) := LowUnsigned(result, Width(r))], mem))
  }

  function VRun<M>(code: seq<MInstr>, width: map<nat, nat>, sem: Semantics<M>, c: VConfig<M>,
                   n: nat): Option<VConfig<M>>
    decreases n
  {
    if n == 0 then Some(c)
    else
      match VStep(code, width, sem, c)
      case None => None
      case Some(c') => VRun(code, width, sem, c', n - 1)
  }

  function PRun<M>(code: seq<MInstr>, sem: Semantics<M>, p: PConfig<M>, n: nat): Option<PConfig<M>>
    decreases n
  {
    if n == 0 then Some(p)
    else
      match PStep(code, sem, p)
      case None => None
      case Some(p') => PRun(code, sem, p', n - 1)
  }

  // ---------------------------------------------------------------------
  // Rewriting
  // ---------------------------------------------------------------------

  function RegFor(regOf: map<nat, nat>, v: nat): nat {
    if v in regOf then regOf[v] else 0
  }

  function RewriteOperand(o: MOperand, regOf: map<nat, nat>): MOperand {
    match o
    case VReg(v, _) => Phys(RegFor(regOf, v))
    case Parameter(v) => Phys(RegFor(regOf, v))
    case Memory(v, offset, _) => PhysMemory(RegFor(regOf, v), offset)
    case _ => o
  }

  function RewriteInstr(i: MInstr, regOf: map<nat, nat>): MInstr {
    i.(operands := seq(|i.operands|, k requires 0 <= k < |i.operands| => RewriteOperand(i.operands[k], regOf)))
  }

  function Rewritten(code: seq<MInstr>, regOf: map<nat, nat>): seq<MInstr> {
    seq(|code|, p requires 0 <= p < |code| => RewriteInstr(code[p], regOf))
  }

  // ---------------------------------------------------------------------
  // Simulation
  // ---------------------------------------------------------------------

  /** Every mentioned register has a range that covers its mentions and a
      physical register of its width; ranges that share an instruction do not
      share a register. */
  ghost predicate Separates(code: seq<MInstr>, ranges: map<nat, Range>, width: map<nat, nat>, regOf: map<nat, nat>) {
    && (forall p: nat, v: nat :: Mentions(code, p, v) ==> v in ranges && ranges[v].def <= p <= ranges[v].kill)
    && (forall v :: v in ranges ==>
      v in regOf && v in width && (IsX(regOf[v]) || IsW(regOf[v])) && Width(regOf[v]) == width[v])
    && (forall u, v :: u in ranges && v in ranges && u != v && Meet(ranges[u], ranges[v]) ==>
          Parent(regOf[u]) != Parent(regOf[v]))
  }

  /** The physical registers hold the values of all virtual registers that may
      still be read. */
  ghost predicate Agree<M>(ranges: map<nat, Range>, regOf: map<nat, nat>, c: VConfig<M>, p: PConfig<M>) {
    && c.pc == p.pc && c.mem == p.mem
    && (forall v :: v in c.vregs ==> v in ranges && v in regOf && ranges[v].def <= c.pc)
    && (forall v :: v in c.vregs && c.pc <= ranges[v].kill ==> RegValue(p.regs, regOf[v]) == c.vregs[v])
  }

  lemma ReadsAgree<M>(code: seq<MInstr>, ranges: map<nat, Range>, width: map<nat, nat>, regOf: map<nat, nat>,
                      c: VConfig<M>, p: PConfig<M>, k: nat)
    requires Separates(code, ranges, width, regOf) && Agree(ranges, regOf, c, p)
    requires c.pc < |code| && k < |code[c.pc].operands| && VRead(code[c.pc].operands[k], c.vregs).Some?
    ensures PRead(RewriteOperand(code[c.pc].operands[k], regOf), p.regs) == VRead(code[c.pc].operands[k], c.vregs)
  {
    var o := code[c.pc].operands[k];
    if UsedReg(o).Some? {
      assert Mentions(code, c.pc, UsedReg(o).value);
    }
  }

  lemma {:induction false} InputsAgree<M>(code: seq<MInstr>, ranges: map<nat, Range>, width: map<nat, nat>,
                                          regOf: map<nat, nat>,
                                          c: VConfig<M>, p: PConfig<M>, k: nat)
    requires Separates(code, ranges, width, regOf) && Agree(ranges, regOf, c, p) && c.pc < |code| &&
             k <= |code[c.pc].operands|
    requires VReadAll(code[c.pc].operands[k..], c.vregs).Some?
    ensures PReadAll(RewriteInstr(code[c.pc], regOf).operands[k..], p.regs)
            == VReadAll(code[c.pc].operands[k..], c.vregs)
    decreases |code[c.pc].operands| - k
  {
    hide VRead, PRead, RewriteOperand, Separates, Agree;
    var os, os' := code[c.pc].operands, RewriteInstr(code[c.pc], regOf).operands;
    if k < |os| {
      assert os[k..][1..] == os[k + 1..] && os'[k..][1..] == os'[k + 1..];
      ReadsAgree(code, ranges, width, regOf, c, p, k);
      InputsAgree(code, ranges, width, regOf, c, p, k + 1);
    }
  }

  /** A step on virtual registers is matched by one on physical registers. */
  lemma StepsAgree<M>(code: seq<MInstr>, ranges: map<nat, Range>, width: map<nat, nat>, regOf: map<nat, nat>,
                      sem: Semantics<M>,
                      c: VConfig<M>, p: PConfig<M>)
    requires Separates(code, ranges, width, regOf) && Agree(ranges, regOf, c, p) && VStep(code, width, sem, c).Some?
    ensures var p' := PStep(Rewritten(code, regOf), sem, p);
            p'.Some? && Agree(ranges, regOf, VStep(code, width, sem, c).value, p'.value)
  {
    var i := code[c.pc];
    InputsAgree(code, ranges, width, regOf, c, p, if i.defines && i.operands != [] then 1 else 0);
    var args := VReadAll(Inputs(i), c.vregs).value;
    assert PReadAll(Inputs(RewriteInstr(i, regOf)), p.regs) == Some(args);
    if i.defines {
      WriteAgrees(code, ranges, width, regOf, c, p, sem.compute(i.opcode, args, c.mem),
                  Target(sem, i, args, c.pc), sem.update(i.opcode, args, c.mem));
    }
  }

  lemma WriteAgrees<M>(code: seq<MInstr>, ranges: map<nat, Range>, width: map<nat, nat>, regOf: map<nat, nat>,
                       c: VConfig<M>, p: PConfig<M>,
                       result: int, next: nat, mem: M)
    requires Separates(code, ranges, width, regOf) && Agree(ranges, regOf, c, p) && c.pc < |code|
    requires code[c.pc].operands != [] && code[c.pc].operands[0].VReg? && code[c.pc].operands[0].v in width
    ensures var v := code[c.pc].operands[0].v;
            && v in regOf
            && Agree(ranges, regOf,
              VConfig(next, if next <= c.pc then map[] else c.vregs[v := LowUnsigned(result, width[v])], mem),
                     PConfig(next, p.regs[Parent(regOf[v]) := LowUnsigned(result, Width(regOf[v]))], mem))
  {
    var v := code[c.pc].operands[0].v;
    assert UsedReg(code[c.pc].operands[0]) == Some(v);
    assert Mentions(code, c.pc, v);
    LowTwice(result, width[v]);
  }

  lemma LowTwice(n: int, width: nat)
    ensures LowUnsigned(LowUnsigned(n, width), width) == LowUnsigned(n, width)
  {
    hide Pow2;
    ModSmall(LowUnsigned(n, width), Pow2(width));
  }

  /** The main result: as long as the code on virtual registers runs, the
      rewritten code goes through the same instructions with the same memory. */
  lemma {:induction false} RunsAgree<M>(code: seq<MInstr>, ranges: map<nat, Range>, width: map<nat, nat>,
                                        regOf: map<nat, nat>,
                                        sem: Semantics<M>, c: VConfig<M>, p: PConfig<M>, n: nat)
    requires Separates(code, ranges, width, regOf) && Agree(ranges, regOf, c, p) && VRun(code, width, sem, c, n).Some?
    ensures var p' := PRun(Rewritten(code, regOf), sem, p, n);
            p'.Some? && Agree(ranges, regOf, VRun(code, width, sem, c, n).value, p'.value)
    decreases n
  {
    if n > 0 {
      StepsAgree(code, ranges, width, regOf, sem, c, p);
      RunsAgree(code, ranges, width, regOf, sem, VStep(code, width, sem, c).value,
                PStep(Rewritten(code, regOf), sem, p).value, n - 1);
    }
  }
}
