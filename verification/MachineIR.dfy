/** Machine instructions before selection, with the 32-bit meaning the
    legalizer has to keep. */
module MachineIR {
  import opened Words
  import opened Source

  /** ZeroReg is the register that always reads as zero. */
  datatype MOpnd = VReg(v: nat) | Imm(n: int) | ZeroReg

  datatype Addr = StackSlot(slot: nat, offset: int) | Based(base: nat, offset: int)

  /** In a ZextLoad, dropped is the old load's destination; instruction
      selection removes that operand.  AddLo12 adds the low twelve bits of a
      symbol's address.  Any other instruction is Other: it may define a
      register, may leave the block for another one, and is observed with the
      values it reads. */
  datatype MIR =
    | Arith(op: BinOp, dst: nat, a: MOpnd, b: MOpnd)
    | LoadImm(dst: nat, n: int)
    | Load(dst: nat, from: Addr, width: nat)
    | ZextLoad(dst: nat, dropped: nat, from: Addr, width: nat)
    | Zext(dst: nat, src: MOpnd, width: nat)
    | Store(to: Addr, src: MOpnd)
    | GlobalAddress(dst: nat, symbol: string)
    | Adrp(dst: nat, symbol: string)
    | AddLo12(dst: nat, page: nat, symbol: string)
    | Other(opcode: nat, def: Option<nat>, srcs: seq<MOpnd>)

  datatype Event = Event(opcode: nat, args: seq<int>)

  /** What a block does not change: where slots and symbols are, and what
      other instructions compute and where they go. */
  datatype Setting = Setting(frame: nat -> int, address: string -> int, compute: (nat, seq<int>) -> int,
                             target: (nat, seq<int>) -> Option<nat>)

  /** exit is the block that control has left for. */
  datatype State = State(regs: map<nat, int>, mem: map<int, int>, trace: seq<Event>, exit: Option<nat>)

  function Val(o: MOpnd, s: State): int {
    match o
    case VReg(v) => Get(s.regs, v)
    case Imm(n) => Wrap(n)
    case ZeroReg => 0
  }

  function Where(e: Setting, a: Addr, s: State): int {
    match a
    case StackSlot(slot, offset) => e.frame(slot) + offset
    case Based(base, offset) => Get(s.regs, base) + offset
  }

  function Vals(os: seq<MOpnd>, s: State): seq<int> {
    seq(|os|, k requires 0 <= k < |os| => Val(os[k], s))
  }

  const PAGE := 4096

  function SetReg(s: State, v: nat, n: int): State {
    s.(regs := s.regs[v := n])
  }

  /** What is behind a jump that was taken does nothing. */
  function Step(e: Setting, i: MIR, s: State): Option<State> {
    if s.exit.Some? then Some(s) else Effect(e, i, s)
  }

  function Effect(e: Setting, i: MIR, s: State): Option<State> {
    match i
    case Arith(op, dst, a, b) =>
      (match BinValue(op, Val(a, s), Val(b, s))
       case None => None
       case Some(n) => Some(SetReg(s, dst, n)))
    case LoadImm(dst, n) => Some(SetReg(s, dst, Wrap(n)))
    case Load(dst, from, width) => Some(SetReg(s, dst, LowSigned(Get(s.mem, Where(e, from, s)), width)))
    case ZextLoad(dst, _, from, width) => Some(SetReg(s, dst, LowUnsigned(Get(s.mem, Where(e, from, s)), width)))
    case Zext(dst, src, width) => Some(SetReg(s, dst, LowUnsigned(Val(src, s), width)))
    case Store(to, src) => Some(s.(mem := s.mem[Where(e, to, s) := Val(src, s)]))
    case GlobalAddress(dst, symbol) => Some(SetReg(s, dst, e.address(symbol)))
    case Adrp(dst, symbol) => Some(SetReg(s, dst, e.address(symbol) - e.address(symbol) % PAGE))
    case AddLo12(dst, page, symbol) => Some(SetReg(s, dst, Get(s.regs, page) + e.address(symbol) % PAGE))
    case Other(opcode, def, srcs) =>
      var args := Vals(srcs, s);
      var s1 := s.(trace := s.trace + [Event(opcode, args)], exit := e.target(opcode, args));
      Some(if def.Some? then SetReg(s1, def.value, e.compute(opcode, args)) else s1)
  }

  /** A block runs from its first to its last instruction; None is undefined
      behaviour, that is division by zero or an oversized shift. */
  function Run(e: Setting, code: seq<MIR>, s: State): Option<State> {
    if code == [] then Some(s)
    else
      match Step(e, code[0], s)
      case None => None
      case Some(s1) => Run(e, code[1..], s1)
  }

  lemma {:induction false} RunAppend(e: Setting, a: seq<MIR>, b: seq<MIR>, s: State)
    ensures Run(e, a + b, s) == if Run(e, a, s).Some? then Run(e, b, Run(e, a, s).value) else None
  {
    if a == [] {
      assert a + b == b;
    } else {
      assert (a + b)[1..] == a[1..] + b;
      if Step(e, a[0], s).Some? {
        RunAppend(e, a[1..], b, Step(e, a[0], s).value);
      }
    }
  }

  // ---------------------------------------------------------------------
  // Registers mentioned
  // ---------------------------------------------------------------------

  function OpndRegs(o: MOpnd): set<nat> {
    if o.VReg? then {o.v} else {}
  }

  function AddrRegs(a: Addr): set<nat> {
    if a.Based? then {a.base} else {}
  }

  function AllRegs(os: seq<MOpnd>): set<nat> {
    set k | 0 <= k < |os| && os[k].VReg? :: os[k].v
  }

  function Reads(i: MIR): set<nat> {
    match i
    case Arith(_, _, a, b) => OpndRegs(a) + OpndRegs(b)
    case LoadImm(_, _) => {}
    case Load(_, from, _) => AddrRegs(from)
    case ZextLoad(_, _, from, _) => AddrRegs(from)
    case Zext(_, src, _) => OpndRegs(src)
    case Store(to, src) => AddrRegs(to) + OpndRegs(src)
    case GlobalAddress(_, _) => {}
    case Adrp(_, _) => {}
    case AddLo12(_, page, _) => {page}
    case Other(_, _, srcs) => AllRegs(srcs)
  }

  function Writes(i: MIR): set<nat> {
    match i
    case Store(_, _) => {}
    case Other(_, def, _) => if def.Some? then {def.value} else {}
    case _ => {i.dst}
  }

  // ---------------------------------------------------------------------
  // States that differ in some registers only
  // ---------------------------------------------------------------------

  ghost predicate SameBut(s: State, t: State, but: set<nat>) {
    && (forall v: nat :: v !in but ==> Get(s.regs, v) == Get(t.regs, v))
    && s.mem == t.mem && s.trace == t.trace && s.exit == t.exit
  }

  lemma StepFrame(e: Setting, i: MIR, s: State, t: State, but: set<nat>)
    requires SameBut(s, t, but) && Reads(i) !! but && Step(e, i, s).Some?
    ensures Step(e, i, t).Some?
    ensures SameBut(Step(e, i, s).value, Step(e, i, t).value, if s.exit.Some? then but else but - Writes(i))
  {
    hide BinValue, LowUnsigned, LowSigned;
    if i.Other? {
      forall k | 0 <= k < |i.srcs|
        ensures Val(i.srcs[k], s) == Val(i.srcs[k], t)
      {
        assert i.srcs[k].VReg? ==> i.srcs[k].v in AllRegs(i.srcs);
      }
      assert Vals(i.srcs, s) == Vals(i.srcs, t);
    } else if i.Arith? {
      assert Val(i.a, s) == Val(i.a, t) && Val(i.b, s) == Val(i.b, t);
    } else if i.Load? || i.ZextLoad? {
      assert Where(e, i.from, s) == Where(e, i.from, t);
    } else if i.Store? {
      assert Where(e, i.to, s) == Where(e, i.to, t) && Val(i.src, s) == Val(i.src, t);
    }
  }

  lemma SameLess(s: State, t: State, but: set<nat>, more: set<nat>)
    requires but <= more
    ensures SameBut(s, t, but) ==> SameBut(s, t, more)
  {
  }

  /** A block that control has left. */
  lemma {:induction false} RunDone(e: Setting, code: seq<MIR>, s: State)
    requires s.exit.Some?
    ensures Run(e, code, s) == Some(s)
  {
    hide Effect;
    if code != [] {
      RunDone(e, code[1..], s);
    }
  }

  lemma {:induction false} RunFrame(e: Setting, code: seq<MIR>, s: State, t: State, but: set<nat>)
    requires SameBut(s, t, but) && Run(e, code, s).Some?
    requires forall k :: 0 <= k < |code| ==> Reads(code[k]) !! but
    ensures Run(e, code, t).Some? && SameBut(Run(e, code, s).value, Run(e, code, t).value, but)
  {
    hide Step, SameBut;
    if code != [] {
      StepFrame(e, code[0], s, t, but);
      SameLess(Step(e, code[0], s).value, Step(e, code[0], t).value, but - Writes(code[0]), but);
      RunFrame(e, code[1..], Step(e, code[0], s).value, Step(e, code[0], t).value, but);
    }
  }

  // ---------------------------------------------------------------------
  // Arithmetic
  // ---------------------------------------------------------------------

  /** C's remainder has the sign of the dividend and completes the truncated
      quotient (section 6.5.5 of ISO/IEC 9899:2011). */
  lemma RemainderIs(a: int, b: int)
    requires b != 0
    ensures var r := a - TruncDiv(a, b) * b;
            && (0 <= a ==> 0 <= r) && (a <= 0 ==> r <= 0)
            && -(if b > 0 then b else -b) < r < (if b > 0 then b else -b)
  {
    if a < 0 {
      var q, r := (-a) / b, (-a) % b;
      assert -a == q * b + r;
      Negate(q, b);
    } else {
      assert a == (a / b) * b + a % b;
    }
  }

  lemma Negate(q: int, b: int)
    ensures (-q) * b == -(q * b)
  {
  }

  lemma WrapCongruent(x: int, y: int, k: int)
    requires x == y + k * TWO_TO_THE_32
    ensures Wrap(x) == Wrap(y)
  {
    assert x + TWO_TO_THE_31 == (y + TWO_TO_THE_31) + k * TWO_TO_THE_32;
    ModShift(y + TWO_TO_THE_31, k, TWO_TO_THE_32);
  }

  lemma WrapIs(x: int) returns (k: int)
    ensures Wrap(x) == x + k * TWO_TO_THE_32
  {
    k := -((x + TWO_TO_THE_31) / TWO_TO_THE_32);
  }

  lemma UnsignedIs(x: int) returns (k: int)
    ensures Unsigned(x) == x + k * TWO_TO_THE_32
  {
    k := -(x / TWO_TO_THE_32);
  }

  /** Multiplying back a quotient and subtracting it, each step wrapped to 32
      bits, is the remainder wrapped once. */
  lemma WrappedRemainder(n: int, q: int, d: int, n': int, d': int, i: int, j: int)
    requires n' == n + i * TWO_TO_THE_32 && d' == d + j * TWO_TO_THE_32
    ensures Wrap(n - Wrap(Wrap(q) * d)) == Wrap(n' - q * d')
  {
    var a := WrapIs(q);
    var b := WrapIs(Wrap(q) * d);
    var m := TWO_TO_THE_32;
    assert Wrap(q) * d == q * d + (a * d) * m by { Distribute(q, a, m, d); }
    assert q * d' == q * d + (q * j) * m by { Distribute(d, j, m, q); }
    assert n - Wrap(Wrap(q) * d) == (n' - q * d') + (q * j - i - a * d - b) * m;
    WrapCongruent(n - Wrap(Wrap(q) * d), n' - q * d', q * j - i - a * d - b);
  }

  lemma Distribute(x: int, a: int, m: int, d: int)
    ensures (x + a * m) * d == x * d + (a * d) * m
    ensures d * (x + a * m) == d * x + (d * a) * m
  {
    assert (x + a * m) * d == x * d + (a * m) * d;
    assert (a * m) * d == a * (m * d) == a * (d * m) == (a * d) * m;
  }

  /** The expansion of MOD and MODU computes the remainder. */
  lemma ModExpands(op: BinOp, n: int, d: int)
    requires (op == MOD || op == MODU) && BinValue(op, n, d).Some?
    ensures var q := BinValue(if op == MODU then DIVU else DIV, n, d);
            && q.Some?
            && BinValue(SUB, n, BinValue(MUL, q.value, d).value) == BinValue(op, n, d)
  {
    if op == MOD {
      WrappedRemainder(n, TruncDiv(n, d), d, n, d, 0, 0);
    } else {
      var i := UnsignedIs(n);
      var j := UnsignedIs(d);
      var u, v := Unsigned(n), Unsigned(d);
      WrappedRemainder(n, u / v, d, u, v, i, j);
      assert u - u / v * v == u % v;
    }
  }

  /** A sign-extended value has the same low bits. */
  lemma LowTwice(x: int, width: nat)
    ensures LowUnsigned(LowSigned(x, width), width) == LowUnsigned(x, width)
  {
    var m := Pow2(width);
    hide Pow2;
    var u := x % m;
    ModSmall(u, m);
    if LowSigned(x, width) != u {
      ModOnce(u - m, m);
      assert (u - m) + m == u;
    }
  }

}
