/** The legalizer's rewrites as functions, and why each keeps the meaning of
    the code around it. */
module Expansions {
  import opened Words
  import opened Source
  import opened MachineIR

  // ---------------------------------------------------------------------
  // What is legal
  // ---------------------------------------------------------------------

  /** The target has no such instruction, whatever stands before it. */
  predicate NeedsExpansion(i: MIR) {
    match i
    case Arith(op, _, a, b) =>
      (match op
       case MOD | MODU => true
       case SUB => a.Imm?
       case MUL | DIV | DIVU => b.Imm?
       case _ => false)
    case Store(_, src) => src.Imm?
    case GlobalAddress(_, _) => true
    case _ => false
  }

  /** The k-th instruction is legal; a zero extension is not when a load
      stands directly before it. */
  predicate Legal(code: seq<MIR>, k: nat)
    requires k < |code|
  {
    !NeedsExpansion(code[k]) && !(code[k].Zext? && k > 0 && code[k - 1].Load?)
  }

  /** AArch64 has no remainder, multiplies and divides registers only, subtracts
      from and stores registers only, and has no address of a symbol in one
      piece; and a zero extension belongs into the load before it. */
  predicate OnTarget(code: seq<MIR>, k: nat)
    requires k < |code|
  {
    var i := code[k];
    && (i.Arith? ==> i.op != MOD && i.op != MODU)
    && (i.Arith? && i.a.Imm? ==> i.op != SUB)
    && (i.Arith? && i.b.Imm? ==> i.op != MUL && i.op != DIV && i.op != DIVU)
    && !(i.Store? && i.src.Imm?)
    && !i.GlobalAddress?
    && !(i.Zext? && k > 0 && code[k - 1].Load?)
  }

  lemma LegalIsOnTarget(code: seq<MIR>, k: nat)
    requires k < |code|
    ensures Legal(code, k) <==> OnTarget(code, k)
  {
  }

  /** The operands of a remainder are a register, and a register or an
      immediate. */
  predicate WellShaped(i: MIR) {
    i.Arith? && (i.op == MOD || i.op == MODU) ==> i.a.VReg? && !i.b.ZeroReg?
  }

  // ---------------------------------------------------------------------
  // The rewrites
  // ---------------------------------------------------------------------

  /** The instructions that replace i; n and n + 1 are fresh registers. */
  function Expansion(i: MIR, n: nat): seq<MIR>
    requires NeedsExpansion(i)
  {
    match i
    case Arith(op, dst, a, b) =>
      if op == MOD || op == MODU then
        [Arith(if op == MODU then DIVU else DIV, n, a, b), Arith(MUL, n + 1, VReg(n), b),
          Arith(SUB, dst, a, VReg(n + 1))]
      else if op == SUB then [LoadImm(n, a.n), Arith(op, dst, VReg(n), b)]
      else [LoadImm(n, b.n), Arith(op, dst, a, VReg(n))]
    case Store(to, src) =>
      if src.n == 0 then [Store(to, ZeroReg)] else [LoadImm(n, src.n), Store(to, VReg(n))]
    case GlobalAddress(dst, symbol) => [Adrp(dst, symbol), AddLo12(dst, dst, symbol)]
  }

  /** How many fresh registers that takes. */
  function FreshCount(i: MIR): (n: nat)
    requires NeedsExpansion(i)
    ensures n <= 2
  {
    match i
    case Arith(op, _, _, _) => if op == MOD || op == MODU then 2 else 1
    case Store(_, src) => if src.n == 0 then 0 else 1
    case GlobalAddress(_, _) => 0
  }

  // ---------------------------------------------------------------------
  // Termination
  // ---------------------------------------------------------------------

  /** An upper bound for the number of steps i will cost. */
  function Weight(i: MIR): nat {
    if !NeedsExpansion(i) then 1
    else if i.Arith? && (i.op == MOD || i.op == MODU) then 8
    else 3
  }

  function TotalWeight(code: seq<MIR>): nat {
    if code == [] then 0 else Weight(code[0]) + TotalWeight(code[1..])
  }

  lemma {:induction false} TotalWeightAppend(a: seq<MIR>, b: seq<MIR>)
    ensures TotalWeight(a + b) == TotalWeight(a) + TotalWeight(b)
  {
    if a == [] {
      assert a + b == b;
    } else {
      assert (a + b)[1..] == a[1..] + b;
      TotalWeightAppend(a[1..], b);
    }
  }

  lemma ExpansionIsLighter(i: MIR, n: nat)
    requires NeedsExpansion(i) && WellShaped(i)
    ensures TotalWeight(Expansion(i, n)) < Weight(i)
    ensures forall k :: 0 <= k < |Expansion(i, n)| ==> WellShaped(Expansion(i, n)[k])
  {
    var x := Expansion(i, n);
    if |x| == 1 {
      Weigh1(x[0]);
    } else if |x| == 2 {
      Weigh2(x[0], x[1]);
    } else {
      assert x == [x[0]] + [x[1], x[2]];
      TotalWeightAppend([x[0]], [x[1], x[2]]);
      Weigh1(x[0]);
      Weigh2(x[1], x[2]);
    }
  }

  lemma Weigh1(a: MIR)
    ensures TotalWeight([a]) == Weight(a)
  {
    assert [a][1..] == [];
  }

  lemma Weigh2(a: MIR, b: MIR)
    ensures TotalWeight([a, b]) == Weight(a) + Weight(b)
  {
    assert [a, b][1..] == [b];
    Weigh1(b);
  }

  // ---------------------------------------------------------------------
  // Registers
  // ---------------------------------------------------------------------

  function Mentioned(i: MIR): set<nat> { Reads(i) + Writes(i) }

  ghost predicate Below(i: MIR, n: nat) {
    && (forall v :: v in Reads(i) ==> v < n)
    && (forall v :: v in Writes(i) ==> v < n)
    && (i.ZextLoad? ==> i.dropped < n)
  }

  lemma OperandsBelow(i: MIR, n: nat)
    requires Below(i, n)
    ensures i.Arith? ==> i.dst < n && (i.a.VReg? ==> i.a.v < n) && (i.b.VReg? ==> i.b.v < n)
    ensures i.Store? ==> (i.src.VReg? ==> i.src.v < n) && (i.to.Based? ==> i.to.base < n)
  {
    if i.Arith? {
      assert i.dst in Writes(i) && OpndRegs(i.a) <= Reads(i) && OpndRegs(i.b) <= Reads(i);
    } else if i.Store? {
      assert AddrRegs(i.to) <= Reads(i) && OpndRegs(i.src) <= Reads(i);
    }
  }

  lemma ExpansionRegs(i: MIR, n: nat, k: nat)
    requires NeedsExpansion(i) && Below(i, n) && k < |Expansion(i, n)|
    ensures Mentioned(Expansion(i, n)[k]) <= Mentioned(i) + {n, n + 1}
    ensures Below(Expansion(i, n)[k], n + FreshCount(i))
  {
  }

  // ---------------------------------------------------------------------
  // Meaning
  // ---------------------------------------------------------------------

  lemma Run1(e: Setting, a: MIR, s: State)
    ensures Run(e, [a], s) == Step(e, a, s)
  {
    hide Step;
    assert [a][1..] == [];
    if Step(e, a, s).Some? {
      assert Run(e, [], Step(e, a, s).value) == Some(Step(e, a, s).value);
    }
  }

  lemma Run2(e: Setting, a: MIR, b: MIR, s: State)
    requires Step(e, a, s).Some?
    ensures Run(e, [a, b], s) == Step(e, b, Step(e, a, s).value)
  {
    hide Step;
    assert [a, b][1..] == [b];
    Run1(e, b, Step(e, a, s).value);
  }

  lemma Run3(e: Setting, a: MIR, b: MIR, c: MIR, s: State)
    requires Step(e, a, s).Some? && Step(e, b, Step(e, a, s).value).Some?
    ensures Run(e, [a, b, c], s) == Step(e, c, Step(e, b, Step(e, a, s).value).value)
  {
    hide Step;
    assert [a, b, c][1..] == [b, c];
    Run2(e, b, c, Step(e, a, s).value);
  }

  /** The expansion does what the instruction did and touches only fresh
      registers besides. */
  lemma ExpansionRuns(e: Setting, i: MIR, n: nat, s: State)
    requires NeedsExpansion(i) && WellShaped(i) && Below(i, n) && Step(e, i, s).Some?
    ensures var t := Run(e, Expansion(i, n), s);
            t.Some? && SameBut(Step(e, i, s).value, t.value, {n, n + 1})
  {
    hide BinValue, Below;
    if s.exit.Some? {
      RunDone(e, Expansion(i, n), s);
      return;
    }
    OperandsBelow(i, n);
    match i
    case Arith(op, dst, a, b) =>
      if op == MOD || op == MODU {
        ModRuns(e, op, dst, a, b, n, s);
      } else {
        ImmediateRuns(e, i, n, s);
      }
    case Store(to, src) =>
      if src.n == 0 {
        Run1(e, Store(to, ZeroReg), s);
      } else {
        Run2(e, LoadImm(n, src.n), Store(to, VReg(n)), s);
      }
    case GlobalAddress(dst, symbol) =>
      Run2(e, Adrp(dst, symbol), AddLo12(dst, dst, symbol), s);
  }

  lemma ImmediateRuns(e: Setting, i: MIR, n: nat, s: State)
    requires i.Arith? && NeedsExpansion(i) && i.op != MOD && i.op != MODU && Below(i, n) && Step(e, i, s).Some? &&
             s.exit.None?
    ensures var t := Run(e, Expansion(i, n), s);
            t.Some? && SameBut(Step(e, i, s).value, t.value, {n, n + 1})
  {
    hide BinValue, Below;
    OperandsBelow(i, n);
    var x := Expansion(i, n);
    Run2(e, x[0], x[1], s);
  }

  lemma ModRuns(e: Setting, op: BinOp, dst: nat, a: MOpnd, b: MOpnd, n: nat, s: State)
    requires (op == MOD || op == MODU) && Below(Arith(op, dst, a, b), n) &&
             Step(e, Arith(op, dst, a, b), s).Some? && s.exit.None?
    ensures var t := Run(e, Expansion(Arith(op, dst, a, b), n), s);
            t.Some? && SameBut(Step(e, Arith(op, dst, a, b), s).value, t.value, {n, n + 1})
  {
    hide BinValue, Below;
    OperandsBelow(Arith(op, dst, a, b), n);
    var div := if op == MODU then DIVU else DIV;
    var x, y := Val(a, s), Val(b, s);
    ModExpands(op, x, y);
    var q := BinValue(div, x, y).value;
    var s1 := SetReg(s, n, q);
    assert Step(e, Arith(div, n, a, b), s) == Some(s1);
    assert Val(b, s1) == y && Val(a, s1) == x && Val(VReg(n), s1) == q;
    var m := BinValue(MUL, q, y);
    assert m.Some? by { MulIsDefined(q, y); }
    var s2 := SetReg(s1, n + 1, m.value);
    assert Step(e, Arith(MUL, n + 1, VReg(n), b), s1) == Some(s2);
    assert Val(a, s2) == x && Val(VReg(n + 1), s2) == m.value;
    Run3(e, Arith(div, n, a, b), Arith(MUL, n + 1, VReg(n), b), Arith(SUB, dst, a, VReg(n + 1)), s);
  }

  lemma MulIsDefined(a: int, b: int)
    ensures BinValue(MUL, a, b).Some?
  {
  }

  /** A zero extension of the value just loaded merges into the load. */
  lemma MergeRuns(e: Setting, x: nat, from: Addr, width: nat, y: nat, s: State)
    ensures var t := Run(e, [Load(x, from, width), Zext(y, VReg(x), width)], s);
            var u := Run(e, [ZextLoad(y, x, from, width)], s);
            t.Some? && u.Some? && SameBut(t.value, u.value, if x == y then {} else {x})
  {
    hide LowSigned, LowUnsigned;
    if s.exit.Some? {
      RunDone(e, [Load(x, from, width), Zext(y, VReg(x), width)], s);
      RunDone(e, [ZextLoad(y, x, from, width)], s);
      return;
    }
    Run2(e, Load(x, from, width), Zext(y, VReg(x), width), s);
    Run1(e, ZextLoad(y, x, from, width), s);
    LowTwice(Get(s.mem, Where(e, from, s)), width);
  }

  /** What a register holds after the code has run. */
  function After(e: Setting, code: seq<MIR>, s: State, v: nat): int {
    match Run(e, code, s)
    case None => 0
    case Some(t) => Get(t.regs, v)
  }

  /** The merge is right for all states exactly when the value extended is the
      one loaded, in the same width; the legalizer only looks at the opcodes. */
  lemma MergeIsExact(e: Setting, x: nat, from: Addr, width: nat, y: nat, src: MOpnd, width': nat)
    requires width > 0 && width' > 0
    ensures (forall s: State ::
               After(e, [Load(x, from, width), Zext(y, src, width')], s, y)
               == After(e, [ZextLoad(y, x, from, width)], s, y)) <==> src == VReg(x) && width == width'
  {
    hide LowSigned, LowUnsigned;
    if src == VReg(x) && width == width' {
      forall s: State
        ensures After(e, [Load(x, from, width), Zext(y, src, width')], s, y)
                == After(e, [ZextLoad(y, x, from, width)], s, y)
      {
        MergeRuns(e, x, from, width, y, s);
      }
    } else if src == VReg(x) {
      var s := WithCell(e, from, State(map[], map[], [], None), -1);
      LowOfMinusOne(width);
      LowOfMinusOne(width');
      MergeTakes(e, x, from, width, y, src, width', s);
      PowsDiffer(width, width');
    } else {
      var s0 := State(if src.VReg? then map[src.v := 1] else map[], map[], [], None);
      var s1 := WithCell(e, from, s0, 1);
      LowOfSmall(width);
      MergeTakes(e, x, from, width, y, src, width', s0);
      MergeTakes(e, x, from, width, y, src, width', s1);
    }
  }

  function WithCell(e: Setting, from: Addr, s: State, v: int): State {
    s.(mem := map[Where(e, from, s) := v])
  }

  /** What either side leaves in y. */
  lemma MergeTakes(e: Setting, x: nat, from: Addr, width: nat, y: nat, src: MOpnd, width': nat, s: State)
    requires s.exit.None?
    ensures var m := Get(s.mem, Where(e, from, s));
            && After(e, [Load(x, from, width), Zext(y, src, width')], s, y)
               == LowUnsigned(if src == VReg(x) then LowSigned(m, width) else Val(src, s), width')
            && After(e, [ZextLoad(y, x, from, width)], s, y) == LowUnsigned(m, width)
  {
    hide LowSigned, LowUnsigned;
    Run2(e, Load(x, from, width), Zext(y, src, width'), s);
    Run1(e, ZextLoad(y, x, from, width), s);
  }

  lemma LowOfMinusOne(width: nat)
    requires width > 0
    ensures LowSigned(-1, width) == -1 && LowUnsigned(-1, width) == Pow2(width) - 1
  {
    var m := Pow2(width);
    assert m == 2 * Pow2(width - 1) >= 2;
    hide Pow2;
    RemainderIsUnique(-1, m, -1, m - 1);
  }

  lemma {:induction false} PowsDiffer(a: nat, b: nat)
    requires a != b
    ensures Pow2(a) != Pow2(b)
  {
    if a > 0 && b > 0 {
      PowsDiffer(a - 1, b - 1);
    }
  }

  /** u + 1 for an unsigned long u: the cast of the literal stands directly
      behind the load of u.  It is reported as illegal, and merging adds u to
      whatever the register of the load held before. */
  lemma LiteralIsTakenForLoad(e: Setting, u: Addr, add: nat, s: State)
    requires s.exit.None?
    ensures var code := [Load(1, u, 64), Zext(2, Imm(1), 32), Other(add, Some(3), [VReg(1), VReg(2)])];
            var merged := [ZextLoad(2, 1, u, 64), Other(add, Some(3), [VReg(1), VReg(2)])];
            var m := Get(s.mem, Where(e, u, s));
            && !Legal(code, 1)
            && Run(e, code, s).Some? && Run(e, code, s).value.trace == s.trace + [Event(add, [LowSigned(m, 64), 1])]
            && Run(e, merged, s).Some?
            && Run(e, merged, s).value.trace == s.trace + [Event(add, [Get(s.regs, 1), LowUnsigned(m, 64)])]
  {
    hide LowSigned, LowUnsigned;
    var o := Other(add, Some(3), [VReg(1), VReg(2)]);
    forall t: State
      ensures Vals(o.srcs, t) == [Get(t.regs, 1), Get(t.regs, 2)]
    {
    }
    Run3(e, Load(1, u, 64), Zext(2, Imm(1), 32), o, s);
    Run2(e, ZextLoad(2, 1, u, 64), o, s);
    LowOfSmall(32);
    ModSmall(1 + TWO_TO_THE_31, TWO_TO_THE_32);
  }

  lemma LowOfSmall(width: nat)
    requires width > 0
    ensures LowUnsigned(1, width) == 1 && LowUnsigned(0, width) == 0
  {
    assert Pow2(width) == 2 * Pow2(width - 1) >= 2;
    ModSmall(1, Pow2(width));
    ModSmall(0, Pow2(width));
  }

  // ---------------------------------------------------------------------
  // Rewriting inside a block
  // ---------------------------------------------------------------------

  /** The states agree on the registers below n that are not in but. */
  ghost predicate SameFor(s: State, t: State, n: nat, but: set<nat>) {
    && (forall v: nat :: v < n && v !in but ==> Get(s.regs, v) == Get(t.regs, v))
    && s.mem == t.mem && s.trace == t.trace && s.exit == t.exit
  }

  /** From every state where the original runs, the code runs too and leaves
      the same, up to the registers named. */
  ghost predicate Preserves(e: Setting, original: seq<MIR>, code: seq<MIR>, n: nat, but: set<nat>) {
    forall s: State :: Run(e, original, s).Some? ==>
      Run(e, code, s).Some? && SameFor(Run(e, original, s).value, Run(e, code, s).value, n, but)
  }

  /** y does what x does, up to the registers in but. */
  ghost predicate Replaces(e: Setting, x: seq<MIR>, y: seq<MIR>, but: set<nat>) {
    forall s: State :: Run(e, x, s).Some? ==> Run(e, y, s).Some? && SameBut(Run(e, x, s).value, Run(e, y, s).value, but)
  }

  lemma ReplaceRuns(e: Setting, pre: seq<MIR>, x: seq<MIR>, y: seq<MIR>, post: seq<MIR>, but: set<nat>, s: State)
    requires Replaces(e, x, y, but) && Run(e, pre + x + post, s).Some?
    requires forall k :: 0 <= k < |post| ==> Reads(post[k]) !! but
    ensures Run(e, pre + y + post, s).Some?
    ensures SameBut(Run(e, pre + x + post, s).value, Run(e, pre + y + post, s).value, but)
  {
    hide Run, SameBut;
    RunAppend(e, pre + x, post, s);
    RunAppend(e, pre, x, s);
    RunAppend(e, pre + y, post, s);
    RunAppend(e, pre, y, s);
    var s1 := Run(e, pre, s).value;
    RunFrame(e, post, Run(e, x, s1).value, Run(e, y, s1).value, but);
  }

  /** A rewrite keeps what the original block means, if the rest does not read
      the registers it changes and those are new or given up. */
  lemma ReplaceKeeps(e: Setting, original: seq<MIR>, pre: seq<MIR>, x: seq<MIR>, y: seq<MIR>, post: seq<MIR>,
                     n: nat, given: set<nat>, but: set<nat>)
    requires Preserves(e, original, pre + x + post, n, given) && Replaces(e, x, y, but)
    requires forall k :: 0 <= k < |post| ==> Reads(post[k]) !! but
    requires forall v :: v in but ==> v >= n || v in given
    ensures Preserves(e, original, pre + y + post, n, given)
  {
    hide Run, Replaces;
    forall s: State | Run(e, original, s).Some?
      ensures Run(e, pre + y + post, s).Some?
      ensures SameFor(Run(e, original, s).value, Run(e, pre + y + post, s).value, n, given)
    {
      ReplaceRuns(e, pre, x, y, post, but, s);
    }
  }
}
