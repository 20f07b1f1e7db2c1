/** The intermediate representation: instructions, and the machine that runs
    the listing of a function's basic blocks in insertion order. */
module IR {
  import opened Words
  import opened Source

  /** A use of a value.  CmpResult is the result of a compare instruction, the
      only kind a condition test looks for.  Using a stack allocation as an
      operand reads the slot. */
  datatype Operand =
    | Const(n: int)
    | Reg(id: nat)
    | CmpResult(id: nat)
    | Slot(id: nat)
    | Param(k: nat)

  /** Label marks the start of a block.  JumpToReturn is the jump whose target
      is still null; it is patched once the return block exists. */
  datatype Instr =
    | Label(bb: nat)
    | StackAlloc(id: nat)
    | Bin(id: nat, op: BinOp, a: Operand, b: Operand)
    | Mov(id: nat, a: Operand)
    | Cmp(id: nat, rel: CompRel, a: Operand, b: Operand)
    | Load(id: nat, slot: nat)
    | Store(src: Operand, slot: nat)
    | Jump(bb: nat)
    | JumpToReturn
    | Branch(cond: Operand, bb: nat)
    | Ret(val: Option<Operand>)

  function Invert(rel: CompRel): CompRel {
    match rel
    case EQ => NE
    case NE => EQ
    case LT => GE
    case GT => LE
    case LE => GT
    case GE => LT
  }

  /** Inverting a relation negates it, and undoes itself. */
  lemma InvertNegates(rel: CompRel, a: int, b: int)
    ensures Holds(Invert(rel), a, b) == !Holds(rel, a, b)
    ensures Invert(Invert(rel)) == rel
  {
  }

  /** Everything a run does not change: the code, the block that null jumps
      were patched to, and the arguments of the call. */
  datatype World = World(code: seq<Instr>, ret: nat, args: seq<int>)

  datatype Config = Config(pc: nat, regs: map<nat, int>, slots: map<nat, int>)

  function Read(w: World, o: Operand, c: Config): Option<int> {
    match o
    case Const(n) => Some(Wrap(n))
    case Reg(id) => if id in c.regs then Some(c.regs[id]) else None
    case CmpResult(id) => if id in c.regs then Some(c.regs[id]) else None
    case Slot(id) => if id in c.slots then Some(c.slots[id]) else None
    case Param(k) => if k < |w.args| then Some(w.args[k]) else None
  }

  /** The position of the first label bb at or after position i. */
  function FindFrom(code: seq<Instr>, bb: nat, i: nat): Option<nat>
    requires i <= |code|
    decreases |code| - i
  {
    if i == |code| then None
    else if code[i] == Label(bb) then Some(i)
    else FindFrom(code, bb, i + 1)
  }

  /** A jump back forgets all values: the code must not carry one around a
      loop, which is what register allocation relies on. */
  function Landed(c: Config, p: nat): Config {
    c.(pc := p, regs := if p <= c.pc then map[] else c.regs)
  }

  function Goto(w: World, bb: nat, c: Config): Option<Config> {
    match FindFrom(w.code, bb, 0)
    case None => None
    case Some(p) => Some(Landed(c, p))
  }

  function Next(c: Config): Config { c.(pc := c.pc + 1) }

  function Define(c: Config, id: nat, v: Option<int>): Option<Config> {
    match v
    case None => None
    case Some(n) => Some(Next(c).(regs := c.regs[id := n]))
  }

  /** One step; None when the machine has stopped or is stuck. */
  function Step(w: World, c: Config): Option<Config> {
    if c.pc >= |w.code| then None
    else
      match w.code[c.pc]
      case Label(_) => Some(Next(c))
      case StackAlloc(_) => Some(Next(c))
      case Bin(id, op, a, b) =>
        var x, y := Read(w, a, c), Read(w, b, c);
        if x.Some? && y.Some? then Define(c, id, BinValue(op, x.value, y.value)) else None
      case Mov(id, a) => Define(c, id, Read(w, a, c))
      case Cmp(id, rel, a, b) =>
        var x, y := Read(w, a, c), Read(w, b, c);
        if x.Some? && y.Some? then Define(c, id, Some(Truth(Holds(rel, x.value, y.value)))) else None
      case Load(id, slot) => Define(c, id, Read(w, Slot(slot), c))
      case Store(src, slot) =>
        (match Read(w, src, c)
         case None => None
         case Some(v) => Some(Next(c).(slots := c.slots[slot := v])))
      case Jump(bb) => Goto(w, bb, c)
      case JumpToReturn => Goto(w, w.ret, c)
      case Branch(cond, bb) =>
        (match Read(w, cond, c)
         case None => None
         case Some(v) => if v != 0 then Goto(w, bb, c) else Some(Next(c)))
      case Ret(_) => None
  }

  function Run(w: World, c: Config, n: nat): Option<Config>
    decreases n
  {
    if n == 0 then Some(c)
    else
      match Step(w, c)
      case None => None
      case Some(c1) => Run(w, c1, n - 1)
  }

  ghost predicate Reaches(w: World, c: Config, c': Config) {
    exists n: nat :: Run(w, c, n) == Some(c')
  }

  lemma ReachesSelf(w: World, c: Config)
    ensures Reaches(w, c, c)
  {
    assert Run(w, c, 0) == Some(c);
  }

  lemma {:induction false} RunAppend(w: World, c: Config, n: nat, c1: Config, m: nat)
    requires Run(w, c, n) == Some(c1)
    ensures Run(w, c, n + m) == Run(w, c1, m)
    decreases n
  {
    if n > 0 {
      RunAppend(w, Step(w, c).value, n - 1, c1, m);
    }
  }

  lemma ReachesTrans(w: World, c0: Config, c1: Config, c2: Config)
    requires Reaches(w, c0, c1) && Reaches(w, c1, c2)
    ensures Reaches(w, c0, c2)
  {
    var n: nat :| Run(w, c0, n) == Some(c1);
    var m: nat :| Run(w, c1, m) == Some(c2);
    RunAppend(w, c0, n, c1, m);
    assert Run(w, c0, n + m) == Some(c2);
  }

  lemma ReachesStep(w: World, c0: Config, c1: Config, c2: Config)
    requires Reaches(w, c0, c1) && Step(w, c1) == Some(c2)
    ensures Reaches(w, c0, c2)
  {
    assert Run(w, c1, 1) == Some(c2) by {
      assert Run(w, c2, 0) == Some(c2);
    }
    ReachesTrans(w, c0, c1, c2);
  }

  /** The machine is not done within n steps. */
  ghost predicate Busy(w: World, c: Config, n: nat) {
    Run(w, c, n).Some?
  }

  lemma {:induction false} RunFewer(w: World, c: Config, n: nat, m: nat)
    requires n <= m && Busy(w, c, m)
    ensures Busy(w, c, n)
    decreases n
  {
    if n > 0 {
      RunFewer(w, Step(w, c).value, n - 1, m - 1);
    }
  }

  lemma BusyBefore(w: World, c: Config, c1: Config, n: nat)
    requires Reaches(w, c, c1) && Busy(w, c1, n)
    ensures Busy(w, c, n) && (c != c1 ==> Busy(w, c, n + 1))
  {
    var k: nat :| Run(w, c, k) == Some(c1);
    RunAppend(w, c, k, c1, n);
    RunFewer(w, c, n, k + n);
    if k > 0 {
      RunFewer(w, c, n + 1, k + n);
    }
  }

  lemma StoppedIsNotBusy(w: World, c: Config, c1: Config)
    requires Reaches(w, c, c1) && Step(w, c1) == None
    ensures exists n: nat :: !Busy(w, c, n)
  {
    var k: nat :| Run(w, c, k) == Some(c1);
    RunAppend(w, c, k, c1, 1);
    assert !Busy(w, c, k + 1);
  }

  /** A machine that has stopped stops nowhere else: its runs are prefixes of
      one another. */
  lemma StopsOnce(w: World, c: Config, c1: Config, c2: Config)
    requires Reaches(w, c, c1) && Step(w, c1) == None
    requires Reaches(w, c, c2) && Step(w, c2) == None
    ensures c1 == c2
  {
    var n: nat :| Run(w, c, n) == Some(c1);
    var m: nat :| Run(w, c, m) == Some(c2);
    if n < m {
      RunAppend(w, c, n, c1, m - n);
    } else if m < n {
      RunAppend(w, c, m, c2, n - m);
    }
  }

  // ---------------------------------------------------------------------
  // Labels
  // ---------------------------------------------------------------------

  /** How many blocks of the listing are block bb. */
  function Count(code: seq<Instr>, bb: nat): nat {
    multiset(code)[Label(bb)]
  }

  ghost predicate UniqueLabels(code: seq<Instr>) {
    forall bb: nat :: Count(code, bb) <= 1
  }

  lemma {:induction false} FindFirst(code: seq<Instr>, bb: nat, p: nat, i: nat)
    requires i <= p < |code| && code[p] == Label(bb)
    requires forall j :: i <= j < p ==> code[j] != Label(bb)
    ensures FindFrom(code, bb, i) == Some(p)
    decreases p - i
  {
    if i < p {
      FindFirst(code, bb, p, i + 1);
    }
  }

  lemma TwoLabels(code: seq<Instr>, bb: nat, j: nat, p: nat)
    requires j < p < |code| && code[j] == Label(bb) == code[p]
    ensures Count(code, bb) >= 2
  {
    assert code == code[..j] + [code[j]] + code[j + 1..p] + [code[p]] + code[p + 1..];
  }

  /** When no label occurs twice, a jump lands on the block it names. */
  lemma FindLabel(code: seq<Instr>, bb: nat, p: nat)
    requires UniqueLabels(code)
    requires p < |code| && code[p] == Label(bb)
    ensures FindFrom(code, bb, 0) == Some(p)
  {
    forall j | 0 <= j < p
      ensures code[j] != Label(bb)
    {
      if code[j] == Label(bb) {
        TwoLabels(code, bb, j, p);
      }
    }
    FindFirst(code, bb, p, 0);
  }
}
