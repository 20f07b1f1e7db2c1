/** Lowered expressions compute what the source says. */
module ExprCorrectness {
  import opened Words
  import opened Source
  import opened IR
  import opened Lowering

  // ---------------------------------------------------------------------
  // Code inside a larger listing
  // ---------------------------------------------------------------------

  ghost predicate At(code: seq<Instr>, p: nat, frag: seq<Instr>) {
    p + |frag| <= |code| && code[p..p + |frag|] == frag
  }

  lemma AtAppend(code: seq<Instr>, p: nat, a: seq<Instr>, b: seq<Instr>)
    requires At(code, p, a + b)
    ensures At(code, p, a) && At(code, p + |a|, b)
  {
    assert code[p..p + |a|] == code[p..p + |a + b|][..|a|];
    assert code[p + |a|..p + |a| + |b|] == code[p..p + |a + b|][|a|..];
  }

  lemma AtOne(code: seq<Instr>, p: nat, frag: seq<Instr>, i: nat)
    requires At(code, p, frag) && i < |frag|
    ensures At(code, p + i, [frag[i]])
  {
    assert code[p..p + |frag|][i] == code[p + i];
  }

  lemma AtTwo(code: seq<Instr>, p: nat, x: Instr, y: Instr)
    requires At(code, p, [x, y])
    ensures At(code, p, [x]) && At(code, p + 1, [y])
  {
    AtOne(code, p, [x, y], 0);
    AtOne(code, p, [x, y], 1);
  }

  lemma AtThree(code: seq<Instr>, p: nat, x: Instr, y: Instr, z: Instr)
    requires At(code, p, [x, y, z])
    ensures At(code, p, [x]) && At(code, p + 1, [y]) && At(code, p + 2, [z])
  {
    AtOne(code, p, [x, y, z], 0);
    AtOne(code, p, [x, y, z], 1);
    AtOne(code, p, [x, y, z], 2);
  }

  lemma AtAppend4(code: seq<Instr>, p: nat, a: seq<Instr>, b: seq<Instr>, c: seq<Instr>, d: seq<Instr>)
    requires At(code, p, a + b + c + d)
    ensures At(code, p, a) && At(code, p + |a|, b) && At(code, p + |a| + |b|, c) && At(code, p + |a| + |b| + |c|, d)
    ensures |a + b + c + d| == |a| + |b| + |c| + |d|
  {
    hide At;
    AtAppend(code, p, a + b + c, d);
    AtAppend(code, p, a + b, c);
    AtAppend(code, p, a, b);
  }

  lemma AtAppend5(code: seq<Instr>, p: nat, a: seq<Instr>, b: seq<Instr>, c: seq<Instr>, d: seq<Instr>, e: seq<Instr>)
    requires At(code, p, a + b + c + d + e)
    ensures At(code, p, a) && At(code, p + |a|, b) && At(code, p + |a| + |b|, c) && At(code, p + |a| + |b| + |c|, d)
    ensures At(code, p + |a| + |b| + |c| + |d|, e)
    ensures |a + b + c + d + e| == |a| + |b| + |c| + |d| + |e|
  {
    hide At;
    AtAppend(code, p, a + b + c + d, e);
    AtAppend4(code, p, a, b, c, d);
  }

  lemma AtIndex(code: seq<Instr>, p: nat, frag: seq<Instr>, i: nat)
    requires At(code, p, frag) && i < |frag|
    ensures code[p + i] == frag[i]
  {
    assert code[p..p + |frag|][i] == code[p + i];
  }

  /** One more step of a run. */
  lemma Do(w: World, c0: Config, c: Config) returns (c': Config)
    requires Reaches(w, c0, c) && Step(w, c).Some?
    ensures Step(w, c) == Some(c') && Reaches(w, c0, c')
  {
    c' := Step(w, c).value;
    ReachesStep(w, c0, c, c');
  }

  // ---------------------------------------------------------------------
  // Variables and temporaries
  // ---------------------------------------------------------------------

  /** The slots of the variables in scope are distinct and hold their values. */
  ghost predicate Agrees(env: Env, sym: SymbolTable, slots: map<nat, int>) {
    && env.Keys <= sym.Keys
    && (forall x :: x in env && env[x].Some? ==> sym[x] in slots && slots[sym[x]] == env[x].value)
    && (forall x, y :: x in env && y in env && x != y ==> sym[x] != sym[y])
  }

  ghost predicate Below(sym: SymbolTable, id: nat) {
    forall x :: x in sym ==> sym[x] < id
  }

  lemma BelowLater(sym: SymbolTable, id: nat, id1: nat)
    requires Below(sym, id) && id <= id1
    ensures Below(sym, id1)
  {
  }

  /** Registers numbered below id, and slots below id that belong to no
      variable, are left alone. */
  ghost predicate Keeps(id: nat, sym: SymbolTable, c: Config, c': Config) {
    && (forall r: nat :: r < id && r in c.regs ==> r in c'.regs && c'.regs[r] == c.regs[r])
    && (forall s: nat :: s < id && s !in sym.Values && s in c.slots ==> s in c'.slots && c'.slots[s] == c.slots[s])
  }

  lemma KeepsTrans(id: nat, id1: nat, sym: SymbolTable, c0: Config, c1: Config, c2: Config)
    requires Keeps(id, sym, c0, c1) && Keeps(id1, sym, c1, c2) && id <= id1
    ensures Keeps(id, sym, c0, c2)
  {
  }

  lemma AgreesAssign(env: Env, sym: SymbolTable, slots: map<nat, int>, x: string, v: int)
    requires Agrees(env, sym, slots) && x in env
    ensures Agrees(env[x := Some(v)], sym, slots[sym[x] := v])
  {
  }

  lemma AgreesRead(env: Env, sym: SymbolTable, slots: map<nat, int>, x: string)
    requires Agrees(env, sym, slots) && HasValue(env, x)
    ensures SlotOf(sym, x) in slots && slots[SlotOf(sym, x)] == env[x].value
  {
  }

  lemma SlotIsOld(sym: SymbolTable, x: string, id: nat, env: Env, slots: map<nat, int>)
    requires Below(sym, id) && Agrees(env, sym, slots) && x in env
    ensures SlotOf(sym, x) < id
  {
  }

  lemma AgreesTemporary(env: Env, sym: SymbolTable, slots: map<nat, int>, s: nat, v: int)
    requires Agrees(env, sym, slots) && Below(sym, s)
    ensures Agrees(env, sym, slots[s := v])
  {
  }

  /** An operand made at or after id survives code that keeps everything below
      id1. */
  lemma ReadKept(w: World, o: Operand, id: nat, id1: nat, sym: SymbolTable, c: Config, c': Config)
    requires Fresh(o, id, id1) && Below(sym, id) && Keeps(id1, sym, c, c')
    requires Read(w, o, c).Some?
    ensures Read(w, o, c') == Read(w, o, c)
  {
    if o.Slot? {
      assert o.id !in sym.Values;
    }
  }

  lemma {:induction false} EvalKeepsScope(e: Expr, env: Env)
    ensures Eval(e, env).Value? ==> Eval(e, env).env.Keys == env.Keys
  {
    match e
    case Literal(_) =>
    case Var(_) =>
    case Post(_, _) =>
    case Not(e) => EvalKeepsScope(e, env);
    case Minus(e) => EvalKeepsScope(e, env);
    case Assign(_, e) => EvalKeepsScope(e, env);
    case OpAssign(_, _, e) => EvalKeepsScope(e, env);
    case Binary(_, l, r) =>
      EvalKeepsScope(l, env);
      if Eval(l, env).Value? { EvalKeepsScope(r, Eval(l, env).env); }
    case Compare(_, l, r) =>
      EvalKeepsScope(l, env);
      if Eval(l, env).Value? { EvalKeepsScope(r, Eval(l, env).env); }
    case LogicalAnd(l, r) =>
      EvalKeepsScope(l, env);
      if Eval(l, env).Value? { EvalKeepsScope(r, Eval(l, env).env); }
    case Ternary(c, t, f) =>
      EvalKeepsScope(c, env);
      if Eval(c, env).Value? {
        EvalKeepsScope(t, Eval(c, env).env);
        EvalKeepsScope(f, Eval(c, env).env);
      }
  }

  // ---------------------------------------------------------------------
  // Inverted compares
  // ---------------------------------------------------------------------

  /** Testing the value of e inverts at most the compare e itself ends with:
      an assignment would already have stored it. */
  predicate Testable(e: Expr) {
    !(e.Assign? && ReturnsCompare(e))
  }

  /** Every condition inside e is testable. */
  predicate Safe(e: Expr) {
    match e
    case Literal(_) => true
    case Var(_) => true
    case Post(_, _) => true
    case Not(e) => Safe(e) && Testable(e)
    case Minus(e) => Safe(e)
    case Assign(_, e) => Safe(e)
    case OpAssign(_, _, e) => Safe(e)
    case Binary(_, l, r) => Safe(l) && Safe(r)
    case Compare(_, l, r) => Safe(l) && Safe(r)
    case LogicalAnd(l, r) => Safe(l) && Testable(l) && Safe(r) && Testable(r)
    case Ternary(c, t, f) => Safe(c) && Testable(c) && Safe(t) && Safe(f)
  }

  /** Compares in the code carry ids in [lo, hi). */
  ghost predicate ComparesIn(code: seq<Instr>, lo: nat, hi: nat) {
    forall i :: 0 <= i < |code| && code[i].Cmp? ==> lo <= code[i].id < hi
  }

  lemma ComparesAppend(a: seq<Instr>, b: seq<Instr>, lo: nat, hi: nat)
    requires ComparesIn(a, lo, hi) && ComparesIn(b, lo, hi)
    ensures ComparesIn(a + b, lo, hi)
  {
  }

  lemma ComparesTested(f: Frag, id: nat, target: nat, lo: nat, hi: nat)
    requires ComparesIn(f.code, lo, hi) && lo <= id && IdAfterBranch(f.val, id) <= hi
    ensures ComparesIn(Tested(f), lo, hi) && ComparesIn(BranchIfZero(f.val, id, target), lo, hi)
  {
    assert forall i :: 0 <= i < |f.code| ==> Tested(f)[i].Cmp? == f.code[i].Cmp?;
  }

  lemma OperandsCompares(l: Frag, r: Frag, commutative: bool, lo: nat, hi: nat)
    requires ComparesIn(l.code, lo, hi) && ComparesIn(r.code, lo, hi)
    ensures ComparesIn(MakeOperands(l, r, commutative).code, lo, hi)
  {
    ComparesAppend(l.code, r.code, lo, hi);
  }

  lemma BinaryCompares(op: BinOp, rel: CompRel, o: Operands, lo: nat)
    requires ComparesIn(o.code, lo, o.id) && lo <= o.id
    ensures ComparesIn(BinaryCode(op, o).code, lo, o.id + 1)
    ensures ComparesIn(CompareCode(rel, o).code, lo, o.id + 1)
  {
  }

  lemma SimpleCompares(id: nat, bb: nat, slot: nat, increment: bool)
    ensures ComparesIn([], id, id)
    ensures ComparesIn(VarCode(id, bb, slot).code, id, id + 1)
    ensures ComparesIn(PostCode(id, bb, slot, increment).code, id, id + 2)
  {
  }

  lemma ExtendedCompares(f: Frag, op: BinOp, slot: nat, lo: nat)
    requires ComparesIn(f.code, lo, f.id)
    ensures ComparesIn(MinusCode(f).code, lo, f.id + 1)
    ensures ComparesIn(AssignCode(f, slot).code, lo, f.id)
    ensures ComparesIn(OpAssignCode(op, f, slot).code, lo, f.id + 2)
  {
  }

  lemma NotCompares(f: Frag, lo: nat)
    requires ComparesIn(f.code, lo, f.id) && lo <= f.id
    ensures ComparesIn(NotCode(f).code, lo, NotCode(f).id)
  {
    var hi := NotCode(f).id;
    ComparesTested(f, f.id + 1, f.bb + 1, lo, hi);
    ComparesAppend(Tested(f), [Store(Const(1), f.id)], lo, hi);
    ComparesAppend(Tested(f) + [Store(Const(1), f.id)], BranchIfZero(f.val, f.id + 1, f.bb + 1), lo, hi);
  }

  lemma LogicalAndCompares(slot: nat, bb: nat, l: Frag, r: Frag)
    requires slot + 1 <= l.id && ComparesIn(l.code, slot + 1, l.id)
    requires IdAfterBranch(l.val, l.id) <= r.id && ComparesIn(r.code, IdAfterBranch(l.val, l.id), r.id)
    ensures ComparesIn(LogicalAndCode(slot, bb, l, r).code, slot, LogicalAndCode(slot, bb, l, r).id)
  {
    var hi := LogicalAndCode(slot, bb, l, r).id;
    ComparesTested(l, l.id, bb + 2, slot, hi);
    ComparesTested(r, r.id, bb + 2, slot, hi);
    var c := [Store(Const(0), slot)] + Tested(l);
    ComparesAppend([Store(Const(0), slot)], Tested(l), slot, hi);
    ComparesAppend(c, BranchIfZero(l.val, l.id, bb + 2), slot, hi);
    c := c + BranchIfZero(l.val, l.id, bb + 2) + [Label(bb)];
    ComparesAppend(c, Tested(r), slot, hi);
    ComparesAppend(c + Tested(r), BranchIfZero(r.val, r.id, bb + 2), slot, hi);
  }

  lemma TernaryCompares(bb: nat, c: Frag, t: Frag, f: Frag, lo: nat)
    requires ComparesIn(c.code, lo, c.id) && lo <= c.id
    requires IdAfterBranch(c.val, c.id) <= t.id && ComparesIn(t.code, IdAfterBranch(c.val, c.id), t.id)
    requires t.id + 1 <= f.id && ComparesIn(f.code, t.id + 1, f.id)
    ensures ComparesIn(TernaryCode(bb, c, t, f).code, lo, f.id)
  {
    var hi := f.id;
    ComparesTested(c, c.id, bb + 1, lo, hi);
    ComparesAppend(Tested(c), BranchIfZero(c.val, c.id, bb + 1), lo, hi);
    var a := Tested(c) + BranchIfZero(c.val, c.id, bb + 1) + [Label(bb)];
    ComparesAppend(a, t.code, lo, hi);
    a := a + t.code + [Store(t.val, t.id), Jump(bb + 2), Label(bb + 1)];
    ComparesAppend(a, f.code, lo, hi);
  }

  lemma {:induction false} LowerCompares(e: Expr, id: nat, bb: nat, sym: SymbolTable)
    ensures ComparesIn(Lower(e, id, bb, sym).code, id, Lower(e, id, bb, sym).id)
    decreases e, 1
  {
    hide ComparesIn, VarCode, PostCode, MinusCode, AssignCode, OpAssignCode;
    hide NotCode, LowerLogicalAnd, LowerTernary, BinaryCode, CompareCode, MakeOperands;
    match e
    case Literal(_) => SimpleCompares(id, bb, 0, true);
    case Var(x) => SimpleCompares(id, bb, SlotOf(sym, x), true);
    case Post(x, increment) => SimpleCompares(id, bb, SlotOf(sym, x), increment);
    case Not(e) =>
      LowerCompares(e, id, bb, sym);
      NotCompares(Lower(e, id, bb, sym), id);
    case Minus(e) =>
      SimpleCompares(id, bb, 0, true);
      LowerCompares(e, id, bb, sym);
      ExtendedCompares(Lower(e, id, bb, sym), ADD, 0, id);
    case Assign(x, e) =>
      LowerCompares(e, id, bb, sym);
      ExtendedCompares(Lower(e, id, bb, sym), ADD, SlotOf(sym, x), id);
    case OpAssign(op, x, e) =>
      LowerCompares(e, id, bb, sym);
      ExtendedCompares(Lower(e, id, bb, sym), op, SlotOf(sym, x), id);
    case Binary(op, l, r) =>
      var fl := Lower(l, id, bb, sym);
      var fr := Lower(r, fl.id, fl.bb, sym);
      PairCompares(e, l, r, CommutativeOp(op), id, bb, sym);
      BinaryCompares(op, EQ, MakeOperands(fl, fr, CommutativeOp(op)), id);
    case Compare(rel, l, r) =>
      var fl := Lower(l, id, bb, sym);
      var fr := Lower(r, fl.id, fl.bb, sym);
      PairCompares(e, l, r, CommutativeRel(rel), id, bb, sym);
      BinaryCompares(ADD, rel, MakeOperands(fl, fr, CommutativeRel(rel)), id);
    case LogicalAnd(_, _) => AndCompares(e, id, bb, sym);
    case Ternary(_, _, _) => SelectCompares(e, id, bb, sym);
  }

  lemma AndCompares(e: Expr, id: nat, bb: nat, sym: SymbolTable)
    requires e.LogicalAnd?
    ensures var f := LowerLogicalAnd(e, id, bb, sym); ComparesIn(f.code, id, f.id)
    decreases e, 0
  {
    hide ComparesIn, LogicalAndCode;
    var fl := Lower(e.l, id + 1, bb + 4, sym);
    LowerCompares(e.l, id + 1, bb + 4, sym);
    LowerCompares(e.r, IdAfterBranch(fl.val, fl.id), fl.bb, sym);
    LogicalAndCompares(id, bb, fl, Lower(e.r, IdAfterBranch(fl.val, fl.id), fl.bb, sym));
  }

  lemma SelectCompares(e: Expr, id: nat, bb: nat, sym: SymbolTable)
    requires e.Ternary?
    ensures var f := LowerTernary(e, id, bb, sym); ComparesIn(f.code, id, f.id)
    decreases e, 0
  {
    hide ComparesIn, TernaryCode;
    var fc := Lower(e.c, id, bb + 3, sym);
    var ft := Lower(e.t, IdAfterBranch(fc.val, fc.id), fc.bb, sym);
    LowerCompares(e.c, id, bb + 3, sym);
    LowerCompares(e.t, IdAfterBranch(fc.val, fc.id), fc.bb, sym);
    LowerCompares(e.f, ft.id + 1, ft.bb, sym);
    TernaryCompares(bb, fc, ft, Lower(e.f, ft.id + 1, ft.bb, sym), id);
  }

  lemma {:induction false} PairCompares(e: Expr, l: Expr, r: Expr, commutative: bool, id: nat, bb: nat,
                                        sym: SymbolTable)
    requires l < e && r < e
    ensures var fl := Lower(l, id, bb, sym);
            var fr := Lower(r, fl.id, fl.bb, sym);
            var o := MakeOperands(fl, fr, commutative);
            ComparesIn(o.code, id, o.id)
    decreases e, 0
  {
    var fl := Lower(l, id, bb, sym);
    var fr := Lower(r, fl.id, fl.bb, sym);
    LowerCompares(l, id, bb, sym);
    LowerCompares(r, fl.id, fl.bb, sym);
    OperandsCompares(fl, fr, commutative, id, MakeOperands(fl, fr, commutative).id);
  }

  // ---------------------------------------------------------------------
  // Simulation
  // ---------------------------------------------------------------------

  /** The machine is about to run frag, and the slots agree with env. */
  ghost predicate Ready(w: World, c: Config, frag: seq<Instr>, env: Env, sym: SymbolTable, id: nat) {
    && UniqueLabels(w.code)
    && At(w.code, c.pc, frag)
    && Agrees(env, sym, c.slots)
    && Below(sym, id)
  }

  /** The machine ran from c to c' at position pc; the slots agree with env
      and nothing made before id was lost. */
  ghost predicate Ran(w: World, c: Config, c': Config, pc: nat, env: Env, sym: SymbolTable, id: nat) {
    && Reaches(w, c, c')
    && c'.pc == pc
    && Agrees(env, sym, c'.slots)
    && Below(sym, id)
    && Keeps(id, sym, c, c')
  }

  lemma RanNothing(w: World, c: Config, env: Env, sym: SymbolTable, id: nat)
    requires Agrees(env, sym, c.slots) && Below(sym, id)
    ensures Ran(w, c, c, c.pc, env, sym, id)
  {
    ReachesSelf(w, c);
  }

  lemma RanTrans(w: World, c0: Config, c1: Config, c2: Config, p1: nat, p2: nat, env1: Env, env2: Env,
                 sym: SymbolTable, id: nat, id1: nat)
    requires Ran(w, c0, c1, p1, env1, sym, id) && Ran(w, c1, c2, p2, env2, sym, id1) && id <= id1
    ensures Ran(w, c0, c2, p2, env2, sym, id)
  {
    ReachesTrans(w, c0, c1, c2);
    KeepsTrans(id, id1, sym, c0, c1, c2);
  }

  /** Next comes an instruction that only defines register d. */
  lemma RunDefine(w: World, c0: Config, c: Config, i: Instr, d: nat, v: int, env: Env, sym: SymbolTable, id: nat)
    returns (c': Config)
    requires Ran(w, c0, c, c.pc, env, sym, id) && id <= d
    requires At(w.code, c.pc, [i])
    requires Step(w, c) == Define(c, d, Some(v))
    ensures c' == Config(c.pc + 1, c.regs[d := v], c.slots)
    ensures Ran(w, c0, c', c'.pc, env, sym, id)
  {
    c' := Do(w, c0, c);
  }

  lemma RunLoad(w: World, c0: Config, c: Config, d: nat, slot: nat, v: int, env: Env, sym: SymbolTable, id: nat)
    returns (c': Config)
    requires Ran(w, c0, c, c.pc, env, sym, id) && id <= d
    requires At(w.code, c.pc, [Load(d, slot)]) && slot in c.slots && c.slots[slot] == v
    ensures c' == Config(c.pc + 1, c.regs[d := v], c.slots)
    ensures Ran(w, c0, c', c'.pc, env, sym, id)
  {
    AtIndex(w.code, c.pc, [Load(d, slot)], 0);
    c' := RunDefine(w, c0, c, Load(d, slot), d, v, env, sym, id);
  }

  lemma RunBin(w: World, c0: Config, c: Config, d: nat, op: BinOp, a: Operand, b: Operand, x: int, y: int,
               env: Env, sym: SymbolTable, id: nat) returns (c': Config)
    requires Ran(w, c0, c, c.pc, env, sym, id) && id <= d
    requires At(w.code, c.pc, [Bin(d, op, a, b)])
    requires Read(w, a, c) == Some(x) && Read(w, b, c) == Some(y) && BinValue(op, x, y).Some?
    ensures c' == Config(c.pc + 1, c.regs[d := BinValue(op, x, y).value], c.slots)
    ensures Ran(w, c0, c', c'.pc, env, sym, id)
  {
    AtIndex(w.code, c.pc, [Bin(d, op, a, b)], 0);
    c' := RunDefine(w, c0, c, Bin(d, op, a, b), d, BinValue(op, x, y).value, env, sym, id);
  }

  lemma RunCmp(w: World, c0: Config, c: Config, d: nat, rel: CompRel, a: Operand, b: Operand, x: int, y: int,
               env: Env, sym: SymbolTable, id: nat) returns (c': Config)
    requires Ran(w, c0, c, c.pc, env, sym, id) && id <= d
    requires At(w.code, c.pc, [Cmp(d, rel, a, b)])
    requires Read(w, a, c) == Some(x) && Read(w, b, c) == Some(y)
    ensures c' == Config(c.pc + 1, c.regs[d := Truth(Holds(rel, x, y))], c.slots)
    ensures Ran(w, c0, c', c'.pc, env, sym, id)
  {
    AtIndex(w.code, c.pc, [Cmp(d, rel, a, b)], 0);
    c' := RunDefine(w, c0, c, Cmp(d, rel, a, b), d, Truth(Holds(rel, x, y)), env, sym, id);
  }

  /** A move of o into register d leaves every other operand readable. */
  lemma RunMov(w: World, c0: Config, c: Config, d: nat, o: Operand, v: int, env: Env, sym: SymbolTable, id: nat)
    returns (c': Config)
    requires Ran(w, c0, c, c.pc, env, sym, id) && id <= d
    requires At(w.code, c.pc, [Mov(d, o)]) && Read(w, o, c) == Some(v)
    ensures c' == Config(c.pc + 1, c.regs[d := v], c.slots)
    ensures Ran(w, c0, c', c'.pc, env, sym, id)
  {
    AtIndex(w.code, c.pc, [Mov(d, o)], 0);
    c' := RunDefine(w, c0, c, Mov(d, o), d, v, env, sym, id);
  }

  /** Next comes a store to a temporary. */
  lemma RunStoreTemporary(w: World, c0: Config, c: Config, src: Operand, s: nat, v: int, env: Env, sym: SymbolTable,
                          id: nat)
    returns (c': Config)
    requires Ran(w, c0, c, c.pc, env, sym, id) && id <= s
    requires At(w.code, c.pc, [Store(src, s)]) && Read(w, src, c) == Some(v)
    ensures c' == Config(c.pc + 1, c.regs, c.slots[s := v])
    ensures Ran(w, c0, c', c'.pc, env, sym, id)
  {
    AtIndex(w.code, c.pc, [Store(src, s)], 0);
    c' := Do(w, c0, c);
    AgreesTemporary(env, sym, c.slots, s, v);
  }

  /** Next comes a store to a variable. */
  lemma RunStoreVariable(w: World, c0: Config, c: Config, src: Operand, x: string, v: int, env: Env, sym: SymbolTable,
                         id: nat)
    returns (c': Config)
    requires Ran(w, c0, c, c.pc, env, sym, id) && x in env
    requires At(w.code, c.pc, [Store(src, SlotOf(sym, x))]) && Read(w, src, c) == Some(v)
    ensures c' == Config(c.pc + 1, c.regs, c.slots[sym[x] := v])
    ensures Ran(w, c0, c', c'.pc, env[x := Some(v)], sym, id)
  {
    AtIndex(w.code, c.pc, [Store(src, SlotOf(sym, x))], 0);
    c' := Do(w, c0, c);
    AgreesAssign(env, sym, c.slots, x, v);
    assert sym[x] in sym.Values;
  }

  lemma RunLabel(w: World, c0: Config, c: Config, bb: nat, env: Env, sym: SymbolTable, id: nat) returns (c': Config)
    requires Ran(w, c0, c, c.pc, env, sym, id)
    requires At(w.code, c.pc, [Label(bb)])
    ensures c' == c.(pc := c.pc + 1)
    ensures Ran(w, c0, c', c'.pc, env, sym, id)
  {
    AtIndex(w.code, c.pc, [Label(bb)], 0);
    c' := Do(w, c0, c);
  }

  /** Next comes a jump to the block that starts at position p. */
  lemma RunJump(w: World, c0: Config, c: Config, bb: nat, p: nat, env: Env, sym: SymbolTable, id: nat)
    returns (c': Config)
    requires Ran(w, c0, c, c.pc, env, sym, id) && UniqueLabels(w.code)
    requires At(w.code, c.pc, [Jump(bb)]) && At(w.code, p, [Label(bb)])
    ensures Reaches(w, c0, c') && c'.pc == p && c'.slots == c.slots
    ensures c.pc < p ==> c' == c.(pc := p) && Ran(w, c0, c', p, env, sym, id)
  {
    AtIndex(w.code, c.pc, [Jump(bb)], 0);
    AtIndex(w.code, p, [Label(bb)], 0);
    FindLabel(w.code, bb, p);
    c' := Do(w, c0, c);
  }

  /** Next comes the branch of a tested value v whose test ended the code just
      run: control goes to the block at p exactly when v is zero. */
  lemma RunBranch(w: World, c0: Config, c: Config, val: Operand, d: nat, target: nat, p: nat, v: int,
                  env: Env, sym: SymbolTable, id: nat) returns (c': Config)
    requires Ran(w, c0, c, c.pc, env, sym, id) && UniqueLabels(w.code) && id <= d
    requires At(w.code, c.pc, BranchIfZero(val, d, target)) && At(w.code, p, [Label(target)])
    requires c.pc + |BranchIfZero(val, d, target)| <= p
    requires Read(w, val, c) == Some(if val.CmpResult? then Truth(v == 0) else v)
    ensures Ran(w, c0, c', if v == 0 then p else c.pc + |BranchIfZero(val, d, target)|, env, sym, id)
    ensures c'.slots == c.slots
  {
    AtIndex(w.code, p, [Label(target)], 0);
    FindLabel(w.code, target, p);
    AtIndex(w.code, c.pc, BranchIfZero(val, d, target), 0);
    if val.CmpResult? {
      c' := Do(w, c0, c);
    } else {
      AtIndex(w.code, c.pc, BranchIfZero(val, d, target), 1);
      var c1 := Do(w, c0, c);
      c' := Do(w, c0, c1);
    }
  }

  /** The main result for expressions.  Running the code of e from a state
      that agrees with env ends right behind it, in a state that agrees with
      the environment the source computes, with the source's value in the
      operand; no register and no temporary made before is lost. */
  lemma {:induction false} ExprRuns(e: Expr, id: nat, bb: nat, sym: SymbolTable, env: Env, w: World, c: Config)
    returns (c': Config)
    requires Safe(e) && Eval(e, env).Value?
    requires Ready(w, c, Lower(e, id, bb, sym).code, env, sym, id)
    ensures var f := Lower(e, id, bb, sym);
            && Ran(w, c, c', c.pc + |f.code|, Eval(e, env).env, sym, id)
            && Read(w, f.val, c') == Some(Eval(e, env).v)
    decreases e, 3
  {
    match e
    case Literal(_) =>
      RanNothing(w, c, env, sym, id);
      c' := c;
    case Var(x) => c' := VarRuns(x, id, bb, sym, env, w, c);
    case Post(x, increment) => c' := PostRuns(x, increment, id, bb, sym, env, w, c);
    case Not(_) => c' := NotRuns(e, id, bb, sym, env, w, c);
    case Minus(_) => c' := MinusRuns(e, id, bb, sym, env, w, c);
    case Binary(_, _, _) => c' := BinaryRuns(e, id, bb, sym, env, w, c);
    case Compare(_, _, _) => c' := CompareRuns(e, id, bb, sym, env, w, c);
    case LogicalAnd(_, _) => c' := LogicalAndRuns(e, id, bb, sym, env, w, c);
    case Assign(_, _) => c' := AssignRuns(e, id, bb, sym, env, w, c);
    case OpAssign(_, _, _) => c' := OpAssignRuns(e, id, bb, sym, env, w, c);
    case Ternary(_, _, _) => c' := TernaryRuns(e, id, bb, sym, env, w, c);
  }

  lemma VarRuns(x: string, id: nat, bb: nat, sym: SymbolTable, env: Env, w: World, c: Config) returns (c': Config)
    requires HasValue(env, x)
    requires Ready(w, c, VarCode(id, bb, SlotOf(sym, x)).code, env, sym, id)
    ensures Ran(w, c, c', c.pc + 1, env, sym, id)
    ensures Read(w, Reg(id), c') == Some(env[x].value)
  {
    hide Reaches, Agrees, Below, Keeps, At, UniqueLabels, Step, Goto, Define, Wrap, BinValue;
    RanNothing(w, c, env, sym, id);
    AgreesRead(env, sym, c.slots, x);
    c' := RunLoad(w, c, c, id, SlotOf(sym, x), env[x].value, env, sym, id);
  }

  lemma PostRuns(x: string, increment: bool, id: nat, bb: nat, sym: SymbolTable, env: Env, w: World, c: Config)
    returns (c': Config)
    requires HasValue(env, x)
    requires Ready(w, c, PostCode(id, bb, SlotOf(sym, x), increment).code, env, sym, id)
    ensures Ran(w, c, c', c.pc + 3, Eval(Expr.Post(x, increment), env).env, sym, id)
    ensures Read(w, Reg(id), c') == Some(env[x].value)
  {
    hide Reaches, Agrees, Below, Keeps, At, UniqueLabels, Step, Goto, Define, Wrap;
    var slot := SlotOf(sym, x);
    var op := if increment then ADD else SUB;
    var code := PostCode(id, bb, slot, increment).code;
    var v := env[x].value;
    RanNothing(w, c, env, sym, id);
    AtOne(w.code, c.pc, code, 0);
    AtOne(w.code, c.pc, code, 1);
    AtOne(w.code, c.pc, code, 2);
    AgreesRead(env, sym, c.slots, x);
    WrapMinus(0);
    var c1 := RunLoad(w, c, c, id, slot, v, env, sym, id);
    var c2 := RunBin(w, c, c1, id + 1, op, Reg(id), Const(1), v, 1, env, sym, id);
    c' := RunStoreVariable(w, c, c2, Reg(id + 1), x, Wrap(if increment then v + 1 else v - 1), env, sym, id);
  }

  lemma WrapMinus(n: int)
    ensures Wrap(-Wrap(n)) == Wrap(-n) && Wrap(0 - n) == Wrap(-n) && Wrap(0) == 0 && Wrap(1) == 1
  {
    assert (-Wrap(n) + TWO_TO_THE_31) % TWO_TO_THE_32 == (-n + TWO_TO_THE_31) % TWO_TO_THE_32;
  }

  lemma MinusRuns(e: Expr, id: nat, bb: nat, sym: SymbolTable, env: Env, w: World, c: Config) returns (c': Config)
    requires e.Minus? && Safe(e) && Eval(e, env).Value?
    requires Ready(w, c, Lower(e, id, bb, sym).code, env, sym, id)
    ensures var f := Lower(e, id, bb, sym);
            && Ran(w, c, c', c.pc + |f.code|, Eval(e, env).env, sym, id)
            && Read(w, f.val, c') == Some(Eval(e, env).v)
    decreases e, 2
  {
    hide Agrees, Below, Keeps, Wrap;
    if e.e.Literal? {
      WrapMinus(e.e.n);
      RanNothing(w, c, env, sym, id);
      c' := c;
    } else {
      c' := NegateRuns(e, e.e, id, bb, sym, env, w, c);
    }
  }

  lemma NegateRuns(e: Expr, e1: Expr, id: nat, bb: nat, sym: SymbolTable, env: Env, w: World, c: Config)
    returns (c': Config)
    requires e1 < e && Safe(e1) && Eval(e1, env).Value?
    requires Ready(w, c, MinusCode(Lower(e1, id, bb, sym)).code, env, sym, id)
    ensures var f := MinusCode(Lower(e1, id, bb, sym));
            && Ran(w, c, c', c.pc + |f.code|, Eval(e1, env).env, sym, id)
            && Read(w, f.val, c') == Some(Wrap(-Eval(e1, env).v))
    decreases e, 1
  {
    hide Reaches, Agrees, Below, Keeps, At, UniqueLabels, Step, Goto, Define, Wrap, Eval, Lower, Safe;
    var f := Lower(e1, id, bb, sym);
    var v, env1 := Eval(e1, env).v, Eval(e1, env).env;
    AtAppend(w.code, c.pc, f.code, [Bin(f.id, SUB, Const(0), f.val)]);
    var c1 := ExprRuns(e1, id, bb, sym, env, w, c);
    WrapMinus(v);
    c' := RunBin(w, c, c1, f.id, SUB, Const(0), f.val, 0, v, env1, sym, id);
  }

  lemma AssignRuns(e: Expr, id: nat, bb: nat, sym: SymbolTable, env: Env, w: World, c: Config) returns (c': Config)
    requires e.Assign? && Safe(e) && Eval(e, env).Value?
    requires Ready(w, c, Lower(e, id, bb, sym).code, env, sym, id)
    ensures var f := Lower(e, id, bb, sym);
            && Ran(w, c, c', c.pc + |f.code|, Eval(e, env).env, sym, id)
            && Read(w, f.val, c') == Some(Eval(e, env).v)
    decreases e, 2
  {
    hide Reaches, Agrees, Below, Keeps, At, UniqueLabels, Step, Goto, Define, Wrap, BinValue;
    var f := Lower(e.e, id, bb, sym);
    var slot := SlotOf(sym, e.x);
    AtAppend(w.code, c.pc, f.code, [Store(f.val, slot)]);
    var c1 := ExprRuns(e.e, id, bb, sym, env, w, c);
    var v, env1 := Eval(e.e, env).v, Eval(e.e, env).env;
    EvalKeepsScope(e.e, env);
    c' := RunStoreVariable(w, c, c1, f.val, e.x, v, env1, sym, id);
    SlotIsOld(sym, e.x, id, env1, c1.slots);
  }

  lemma OpAssignRuns(e: Expr, id: nat, bb: nat, sym: SymbolTable, env: Env, w: World, c: Config) returns (c': Config)
    requires e.OpAssign? && Safe(e) && Eval(e, env).Value?
    requires Ready(w, c, Lower(e, id, bb, sym).code, env, sym, id)
    ensures var f := Lower(e, id, bb, sym);
            && Ran(w, c, c', c.pc + |f.code|, Eval(e, env).env, sym, id)
            && Read(w, f.val, c') == Some(Eval(e, env).v)
    decreases e, 2
  {
    hide Reaches, Agrees, Below, Keeps, At, UniqueLabels, Step, Goto, Define, Wrap, BinValue, OpAssignCode;
    var f := Lower(e.e, id, bb, sym);
    OpAssignLayout(w.code, c.pc, e.aop, f, SlotOf(sym, e.x));
    var c1 := ExprRuns(e.e, id, bb, sym, env, w, c);
    c' := OpAssignTail(w, c, c1, e.aop, e.x, f, Eval(e.e, env).v, Eval(e.e, env).env, sym, id);
  }

  lemma OpAssignLayout(code: seq<Instr>, p: nat, op: BinOp, f: Frag, slot: nat)
    requires At(code, p, OpAssignCode(op, f, slot).code)
    ensures |OpAssignCode(op, f, slot).code| == |f.code| + 3
    ensures At(code, p, f.code) && At(code, p + |f.code|, [Load(f.id, slot)])
    ensures At(code, p + |f.code| + 1, [Bin(f.id + 1, op, Reg(f.id), f.val)])
    ensures At(code, p + |f.code| + 2, [Store(Reg(f.id + 1), slot)])
  {
    hide At;
    var tail := [Load(f.id, slot), Bin(f.id + 1, op, Reg(f.id), f.val), Store(Reg(f.id + 1), slot)];
    AtAppend(code, p, f.code, tail);
    AtOne(code, p + |f.code|, tail, 0);
    AtOne(code, p + |f.code|, tail, 1);
    AtOne(code, p + |f.code|, tail, 2);
  }

  lemma OpAssignTail(w: World, c: Config, c1: Config, op: BinOp, x: string, f: Frag, b: int,
                     env: Env, sym: SymbolTable, id: nat) returns (c': Config)
    requires At(w.code, c.pc, OpAssignCode(op, f, SlotOf(sym, x)).code)
    requires Ran(w, c, c1, c.pc + |f.code|, env, sym, id) && id <= f.id && Fresh(f.val, id, f.id)
    requires Read(w, f.val, c1) == Some(b)
    requires HasValue(env, x) && BinValue(op, env[x].value, b).Some?
    ensures var v := BinValue(op, env[x].value, b).value;
            && Ran(w, c, c', c.pc + |f.code| + 3, env[x := Some(v)], sym, id)
            && Read(w, Reg(f.id + 1), c') == Some(v)
  {
    hide Reaches, Agrees, Below, Keeps, At, UniqueLabels, Step, Goto, Define, Wrap, BinValue;
    var slot := SlotOf(sym, x);
    OpAssignLayout(w.code, c.pc, op, f, slot);
    AgreesRead(env, sym, c1.slots, x);
    var c2 := RunLoad(w, c, c1, f.id, slot, env[x].value, env, sym, id);
    var c3 := RunBin(w, c, c2, f.id + 1, op, Reg(f.id), f.val, env[x].value, b, env, sym, id);
    c' := RunStoreVariable(w, c, c3, Reg(f.id + 1), x, BinValue(op, env[x].value, b).value, env, sym, id);
  }

  /** Both operands end up readable, exchanged if the lowering swapped them. */
  lemma PairRuns(e: Expr, l: Expr, r: Expr, commutative: bool, id: nat, bb: nat, sym: SymbolTable, env: Env, w: World,
                 c: Config)
    returns (c': Config)
    requires l < e && r < e && Safe(l) && Safe(r)
    requires Eval(l, env).Value? && Eval(r, Eval(l, env).env).Value?
    requires var fl := Lower(l, id, bb, sym);
             var fr := Lower(r, fl.id, fl.bb, sym);
             Ready(w, c, MakeOperands(fl, fr, commutative).code, env, sym, id)
    ensures var fl := Lower(l, id, bb, sym);
            var fr := Lower(r, fl.id, fl.bb, sym);
            var o := MakeOperands(fl, fr, commutative);
            var a, env1 := Eval(l, env).v, Eval(l, env).env;
            var b := Eval(r, env1).v;
            var swap := SwapsOperands(commutative, fl.val, fr.val);
            && Ran(w, c, c', c.pc + |o.code|, Eval(r, env1).env, sym, id)
            && Read(w, o.a, c') == Some(if swap then b else a)
            && Read(w, o.b, c') == Some(if swap then a else b)
    decreases e, 0
  {
    hide Reaches, Agrees, Below, Keeps, At, UniqueLabels, Step, Goto, Define, Wrap, BinValue, Eval, Lower, Safe;
    var fl := Lower(l, id, bb, sym);
    var fr := Lower(r, fl.id, fl.bb, sym);
    var o := MakeOperands(fl, fr, commutative);
    var env1 := Eval(l, env).env;
    var env2 := Eval(r, env1).env;
    var swap := SwapsOperands(commutative, fl.val, fr.val);
    var first := if swap then fr.val else fl.val;
    if first.Const? {
      AtAppend(w.code, c.pc, fl.code + fr.code, [Mov(fr.id, first)]);
    }
    AtAppend(w.code, c.pc, fl.code, fr.code);
    var c1 := ExprRuns(l, id, bb, sym, env, w, c);
    BelowLater(sym, id, fl.id);
    var c2 := ExprRuns(r, fl.id, fl.bb, sym, env1, w, c1);
    RanTrans(w, c, c1, c2, c1.pc, c2.pc, env1, env2, sym, id, fl.id);
    ReadKept(w, fl.val, id, fl.id, sym, c1, c2);
    c' := c2;
    if first.Const? {
      c' := RunMov(w, c, c2, fr.id, first, Read(w, first, c2).value, env2, sym, id);
    }
  }

  lemma BinValueCommutes(op: BinOp, a: int, b: int)
    requires CommutativeOp(op)
    ensures BinValue(op, a, b) == BinValue(op, b, a)
  {
    if op == AND {
      BitAndCommutes(Unsigned(a), Unsigned(b));
    } else if op == MUL {
      assert a * b == b * a;
    }
  }

  lemma BinaryRuns(e: Expr, id: nat, bb: nat, sym: SymbolTable, env: Env, w: World, c: Config) returns (c': Config)
    requires e.Binary? && Safe(e) && Eval(e, env).Value?
    requires Ready(w, c, Lower(e, id, bb, sym).code, env, sym, id)
    ensures var f := Lower(e, id, bb, sym);
            && Ran(w, c, c', c.pc + |f.code|, Eval(e, env).env, sym, id)
            && Read(w, f.val, c') == Some(Eval(e, env).v)
    decreases e, 2
  {
    hide Reaches, Agrees, Below, Keeps, At, UniqueLabels, Step, Goto, Define, Wrap, BinValue, MakeOperands;
    var fl := Lower(e.l, id, bb, sym);
    var fr := Lower(e.r, fl.id, fl.bb, sym);
    var o := MakeOperands(fl, fr, CommutativeOp(e.op));
    var a, env1 := Eval(e.l, env).v, Eval(e.l, env).env;
    var b, env2 := Eval(e.r, env1).v, Eval(e.r, env1).env;
    AtAppend(w.code, c.pc, o.code, [Bin(o.id, e.op, o.a, o.b)]);
    var c1 := PairRuns(e, e.l, e.r, CommutativeOp(e.op), id, bb, sym, env, w, c);
    if SwapsOperands(CommutativeOp(e.op), fl.val, fr.val) {
      BinValueCommutes(e.op, a, b);
      c' := RunBin(w, c, c1, o.id, e.op, o.a, o.b, b, a, env2, sym, id);
    } else {
      c' := RunBin(w, c, c1, o.id, e.op, o.a, o.b, a, b, env2, sym, id);
    }
  }

  /** The compare of e, with its relation as written or inverted. */
  lemma CompareUnfolds(e: Expr, id: nat, bb: nat, sym: SymbolTable)
    requires e.Compare?
    ensures var fl := Lower(e.l, id, bb, sym);
            var o := MakeOperands(fl, Lower(e.r, fl.id, fl.bb, sym), CommutativeRel(e.rel));
            Lower(e, id, bb, sym) == CompareCode(e.rel, o)
  {
    assert Lower(e, id, bb, sym) == LowerCompare(e, id, bb, sym);
  }

  lemma CompareStep(e: Expr, rel: CompRel, id: nat, bb: nat, sym: SymbolTable, env: Env, w: World, c: Config)
    returns (c': Config)
    requires e.Compare? && Safe(e) && Eval(e, env).Value? && (rel == e.rel || rel == Invert(e.rel))
    requires var fl := Lower(e.l, id, bb, sym);
             var fr := Lower(e.r, fl.id, fl.bb, sym);
             var o := MakeOperands(fl, fr, CommutativeRel(e.rel));
             Ready(w, c, o.code + [Cmp(o.id, rel, o.a, o.b)], env, sym, id)
    ensures var f := Lower(e, id, bb, sym);
            && Ran(w, c, c', c.pc + |f.code|, Eval(e, env).env, sym, id)
            && Read(w, f.val, c') == Some(if rel == e.rel then Eval(e, env).v else Truth(Eval(e, env).v == 0))
    decreases e, 1
  {
    var fl := Lower(e.l, id, bb, sym);
    var fr := Lower(e.r, fl.id, fl.bb, sym);
    var o := MakeOperands(fl, fr, CommutativeRel(e.rel));
    var i := Cmp(o.id, rel, o.a, o.b);
    hide Reaches, Agrees, Below, Keeps, At, UniqueLabels, Step, Goto, Define, Wrap, BinValue, MakeOperands, Lower;
    CompareUnfolds(e, id, bb, sym);
    AtAppend(w.code, c.pc, o.code, [i]);
    var c1 := PairRuns(e, e.l, e.r, CommutativeRel(e.rel), id, bb, sym, env, w, c);
    c' := RunCmp(w, c, c1, o.id, rel, o.a, o.b, Read(w, o.a, c1).value, Read(w, o.b, c1).value, Eval(e, env).env,
      sym, id);
  }

  lemma CompareRuns(e: Expr, id: nat, bb: nat, sym: SymbolTable, env: Env, w: World, c: Config) returns (c': Config)
    requires e.Compare? && Safe(e) && Eval(e, env).Value?
    requires Ready(w, c, Lower(e, id, bb, sym).code, env, sym, id)
    ensures var f := Lower(e, id, bb, sym);
            && Ran(w, c, c', c.pc + |f.code|, Eval(e, env).env, sym, id)
            && Read(w, f.val, c') == Some(Eval(e, env).v)
    decreases e, 2
  {
    var fl := Lower(e.l, id, bb, sym);
    var fr := Lower(e.r, fl.id, fl.bb, sym);
    var o := MakeOperands(fl, fr, CommutativeRel(e.rel));
    assert Lower(e, id, bb, sym).code == o.code + [Cmp(o.id, e.rel, o.a, o.b)];
    c' := CompareStep(e, e.rel, id, bb, sym, env, w, c);
  }

  /** Inverting the compare that e ends with changes nothing else. */
  lemma InvertLast(e: Expr, id: nat, bb: nat, sym: SymbolTable)
    requires e.Compare?
    ensures var fl := Lower(e.l, id, bb, sym);
            var fr := Lower(e.r, fl.id, fl.bb, sym);
            var o := MakeOperands(fl, fr, CommutativeRel(e.rel));
            Tested(Lower(e, id, bb, sym)) == o.code + [Cmp(o.id, Invert(e.rel), o.a, o.b)]
  {
    var fl := Lower(e.l, id, bb, sym);
    var fr := Lower(e.r, fl.id, fl.bb, sym);
    var o := MakeOperands(fl, fr, CommutativeRel(e.rel));
    PairCompares(e, e.l, e.r, CommutativeRel(e.rel), id, bb, sym);
    assert forall i :: 0 <= i < |o.code| ==> InvertInstr(o.code[i], o.id) == o.code[i];
    assert InvertIn(o.code + [Cmp(o.id, e.rel, o.a, o.b)], o.id) == o.code + [Cmp(o.id, Invert(e.rel), o.a, o.b)];
  }

  /** A tested expression: if its compare was inverted, the operand holds the
      negation of the value. */
  lemma TestedRuns(e: Expr, id: nat, bb: nat, sym: SymbolTable, env: Env, w: World, c: Config) returns (c': Config)
    requires Safe(e) && Testable(e) && Eval(e, env).Value?
    requires Ready(w, c, Tested(Lower(e, id, bb, sym)), env, sym, id)
    ensures var f := Lower(e, id, bb, sym);
            var v := Eval(e, env).v;
            && Ran(w, c, c', c.pc + |f.code|, Eval(e, env).env, sym, id)
            && Read(w, f.val, c') == Some(if f.val.CmpResult? then Truth(v == 0) else v)
    decreases e, 4
  {
    var f := Lower(e, id, bb, sym);
    if f.val.CmpResult? {
      InvertLast(e, id, bb, sym);
      InvertNegates(e.rel, 0, 0);
      c' := CompareStep(e, Invert(e.rel), id, bb, sym, env, w, c);
    } else {
      c' := ExprRuns(e, id, bb, sym, env, w, c);
    }
  }

  /** A condition: its value decides between falling through and the block at p. */
  lemma ConditionRuns(e: Expr, id: nat, bb: nat, target: nat, p: nat, sym: SymbolTable, env: Env, w: World, c: Config)
    returns (c': Config)
    requires Safe(e) && Testable(e) && Eval(e, env).Value?
    requires var f := Lower(e, id, bb, sym);
             && Ready(w, c, Tested(f) + BranchIfZero(f.val, f.id, target), env, sym, id)
             && c.pc + |f.code| + |BranchIfZero(f.val, f.id, target)| <= p
    requires At(w.code, p, [Label(target)])
    ensures var f := Lower(e, id, bb, sym);
            var end := c.pc + |f.code| + |BranchIfZero(f.val, f.id, target)|;
            Ran(w, c, c', if Eval(e, env).v == 0 then p else end, Eval(e, env).env, sym, id)
    decreases e, 5
  {
    var f := Lower(e, id, bb, sym);
    AtAppend(w.code, c.pc, Tested(f), BranchIfZero(f.val, f.id, target));
    var c1 := TestedRuns(e, id, bb, sym, env, w, c);
    c' := RunBranch(w, c, c1, f.val, f.id, target, p, Eval(e, env).v, Eval(e, env).env, sym, id);
  }

  // ------------------------------------------------------------ `!`

  /** Where the parts of the code of `!` are. */
  lemma NotLayout(code: seq<Instr>, p: nat, f: Frag)
    requires At(code, p, NotCode(f).code)
    ensures var slot, yes, end := f.id, f.bb, f.bb + 1;
            var branch := BranchIfZero(f.val, slot + 1, end);
            var q := p + |f.code| + 1 + |branch|;
            && |NotCode(f).code| == |f.code| + 1 + |branch| + 5
            && At(code, p, Tested(f))
            && At(code, p + |f.code|, [Store(Const(1), slot)])
            && At(code, p + |f.code| + 1, branch)
            && At(code, q, [Label(yes)])
            && At(code, q + 1, [Store(Const(0), slot)])
            && At(code, q + 2, [Jump(end)])
            && At(code, q + 3, [Label(end)])
            && At(code, q + 4, [Load(IdAfterBranch(f.val, slot + 1), slot)])
  {
    hide At, Tested, BranchIfZero;
    var slot, yes, end := f.id, f.bb, f.bb + 1;
    var load := IdAfterBranch(f.val, slot + 1);
    var init := [Store(Const(1), slot)];
    var branch := BranchIfZero(f.val, slot + 1, end);
    var tail := [Label(yes), Store(Const(0), slot), Jump(end), Label(end), Load(load, slot)];
    AtAppend(code, p, Tested(f) + init + branch, tail);
    AtAppend(code, p, Tested(f) + init, branch);
    AtAppend(code, p, Tested(f), init);
    var q := p + |Tested(f) + init + branch|;
    AtOne(code, q, tail, 0);
    AtOne(code, q, tail, 1);
    AtOne(code, q, tail, 2);
    AtOne(code, q, tail, 3);
    AtOne(code, q, tail, 4);
  }

  lemma NotRuns(e: Expr, id: nat, bb: nat, sym: SymbolTable, env: Env, w: World, c: Config) returns (c': Config)
    requires e.Not? && Safe(e) && Eval(e, env).Value?
    requires Ready(w, c, Lower(e, id, bb, sym).code, env, sym, id)
    ensures var f := Lower(e, id, bb, sym);
            && Ran(w, c, c', c.pc + |f.code|, Eval(e, env).env, sym, id)
            && Read(w, f.val, c') == Some(Eval(e, env).v)
    decreases e, 2
  {
    hide Reaches, Agrees, Below, Keeps, At, UniqueLabels, Step, Goto, Define, Wrap, BinValue;
    hide NotCode, Tested, BranchIfZero;
    var f := Lower(e.e, id, bb, sym);
    NotLayout(w.code, c.pc, f);
    var c1 := TestedRuns(e.e, id, bb, sym, env, w, c);
    c' := NotTail(w, c, c1, f, Eval(e.e, env).v, Eval(e.e, env).env, sym, id);
  }

  /** From the tested operand to the end. */
  lemma NotTail(w: World, c: Config, c1: Config, f: Frag, v: int, env: Env, sym: SymbolTable, id: nat)
    returns (c': Config)
    requires UniqueLabels(w.code) && At(w.code, c.pc, NotCode(f).code)
    requires Ran(w, c, c1, c.pc + |f.code|, env, sym, id) && id <= f.id && Fresh(f.val, id, f.id)
    requires Read(w, f.val, c1) == Some(if f.val.CmpResult? then Truth(v == 0) else v)
    ensures Ran(w, c, c', c.pc + |NotCode(f).code|, env, sym, id)
    ensures Read(w, NotCode(f).val, c') == Some(Truth(v == 0))
  {
    hide Reaches, Agrees, Below, Keeps, At, UniqueLabels, Step, Goto, Define, Wrap, BinValue;
    NotLayout(w.code, c.pc, f);
    hide Tested, BranchIfZero;
    var slot, yes, end := f.id, f.bb, f.bb + 1;
    var load := IdAfterBranch(f.val, slot + 1);
    var c2 := RunStoreTemporary(w, c, c1, Const(1), slot, 1, env, sym, id);
    var q := c.pc + |f.code| + 1 + |BranchIfZero(f.val, slot + 1, end)|;
    var c3 := RunBranch(w, c, c2, f.val, slot + 1, end, q + 3, v, env, sym, id);
    if v != 0 {
      var c4 := RunLabel(w, c, c3, yes, env, sym, id);
      var c5 := RunStoreTemporary(w, c, c4, Const(0), slot, 0, env, sym, id);
      c3 := RunJump(w, c, c5, end, q + 3, env, sym, id);
    }
    var c6 := RunLabel(w, c, c3, end, env, sym, id);
    c' := RunLoad(w, c, c6, load, slot, Truth(v == 0), env, sym, id);
  }

  // ------------------------------------------------------------ `&&`

  lemma LogicalAndLayout(code: seq<Instr>, p: nat, slot: nat, bb: nat, l: Frag, r: Frag)
    requires At(code, p, LogicalAndCode(slot, bb, l, r).code)
    ensures var rhs, yes, no, end := bb, bb + 1, bb + 2, bb + 3;
            var lb, rb := BranchIfZero(l.val, l.id, no), BranchIfZero(r.val, r.id, no);
            var load := IdAfterBranch(r.val, r.id);
            var q := p + 1 + |l.code| + |lb|;
            var t := q + 1 + |r.code| + |rb|;
            && p + |LogicalAndCode(slot, bb, l, r).code| == t + 8
            && At(code, p, [Store(Const(0), slot)])
            && At(code, p + 1, Tested(l))
            && At(code, p + 1 + |l.code|, lb)
            && At(code, q, [Label(rhs)])
            && At(code, q + 1, Tested(r))
            && At(code, q + 1 + |r.code|, rb)
            && At(code, t, [Label(yes)])
            && At(code, t + 1, [Store(Const(1), slot)])
            && At(code, t + 2, [Jump(end)])
            && At(code, t + 3, [Label(no)])
            && At(code, t + 4, [Store(Const(0), slot)])
            && At(code, t + 5, [Jump(end)])
            && At(code, t + 6, [Label(end)])
            && At(code, t + 7, [Load(load, slot)])
  {
    hide At, Tested, BranchIfZero;
    var rhs, yes, no, end := bb, bb + 1, bb + 2, bb + 3;
    var load := IdAfterBranch(r.val, r.id);
    var init := [Store(Const(0), slot)];
    var lb, rb := BranchIfZero(l.val, l.id, no), BranchIfZero(r.val, r.id, no);
    var tail := [Label(yes), Store(Const(1), slot), Jump(end),
                 Label(no), Store(Const(0), slot), Jump(end),
                 Label(end), Load(load, slot)];
    var a := init + Tested(l) + lb + [Label(rhs)];
    AtAppend(code, p, a + Tested(r) + rb, tail);
    AtAppend(code, p, a + Tested(r), rb);
    AtAppend(code, p, a, Tested(r));
    AtAppend(code, p, init + Tested(l) + lb, [Label(rhs)]);
    AtAppend(code, p, init + Tested(l), lb);
    AtAppend(code, p, init, Tested(l));
    var t := p + |a + Tested(r) + rb|;
    AtOne(code, t, tail, 0);
    AtOne(code, t, tail, 1);
    AtOne(code, t, tail, 2);
    AtOne(code, t, tail, 3);
    AtOne(code, t, tail, 4);
    AtOne(code, t, tail, 5);
    AtOne(code, t, tail, 6);
    AtOne(code, t, tail, 7);
  }

  lemma LogicalAndRuns(e: Expr, id: nat, bb: nat, sym: SymbolTable, env: Env, w: World, c: Config) returns (c': Config)
    requires e.LogicalAnd? && Safe(e) && Eval(e, env).Value?
    requires Ready(w, c, Lower(e, id, bb, sym).code, env, sym, id)
    ensures var f := Lower(e, id, bb, sym);
            && Ran(w, c, c', c.pc + |f.code|, Eval(e, env).env, sym, id)
            && Read(w, f.val, c') == Some(Eval(e, env).v)
    decreases e, 2
  {
    hide Reaches, Agrees, Below, Keeps, At, UniqueLabels, Step, Goto, Define, Wrap, BinValue, LogicalAndCode,
      Tested, BranchIfZero;
    var l := Lower(e.l, id + 1, bb + 4, sym);
    var r := Lower(e.r, IdAfterBranch(l.val, l.id), l.bb, sym);
    var a, env1 := Eval(e.l, env).v, Eval(e.l, env).env;
    LogicalAndLayout(w.code, c.pc, id, bb, l, r);
    RanNothing(w, c, env, sym, id);
    var c1 := RunStoreTemporary(w, c, c, Const(0), id, 0, env, sym, id);
    BelowLater(sym, id, id + 1);
    var c2 := TestedRuns(e.l, id + 1, bb + 4, sym, env, w, c1);
    RanTrans(w, c, c1, c2, c1.pc, c2.pc, env, env1, sym, id, id + 1);
    var c3 := LogicalAndLeft(w, c, c2, id, bb, l, r, a, env1, sym, id);
    c' := c3;
    if a != 0 {
      c' := LogicalAndRest(e, e.r, id, bb, l, r, sym, env1, w, c, c3);
    }
  }

  /** The right side, once the left side was not zero. */
  lemma LogicalAndRest(e: Expr, e2: Expr, id: nat, bb: nat, l: Frag, r: Frag, sym: SymbolTable, env: Env,
                       w: World, c: Config, c3: Config) returns (c': Config)
    requires e2 < e && Safe(e2) && Testable(e2) && Eval(e2, env).Value?
    requires r == Lower(e2, IdAfterBranch(l.val, l.id), l.bb, sym) && id <= l.id
    requires UniqueLabels(w.code) && At(w.code, c.pc, LogicalAndCode(id, bb, l, r).code)
    requires Ran(w, c, c3, c.pc + 1 + |l.code| + |BranchIfZero(l.val, l.id, bb + 2)| + 1, env, sym, id)
    ensures var f := LogicalAndCode(id, bb, l, r);
            && Ran(w, c, c', c.pc + |f.code|, Eval(e2, env).env, sym, id)
            && Read(w, f.val, c') == Some(Truth(Eval(e2, env).v != 0))
    decreases e, 1
  {
    hide Reaches, Agrees, Below, Keeps, At, UniqueLabels, Step, Goto, Define, Wrap, BinValue, Eval, Lower, Safe,
      LogicalAndCode, Tested, BranchIfZero;
    LogicalAndLayout(w.code, c.pc, id, bb, l, r);
    var rid := IdAfterBranch(l.val, l.id);
    var b, env2 := Eval(e2, env).v, Eval(e2, env).env;
    BelowLater(sym, id, rid);
    var c4 := TestedRuns(e2, rid, l.bb, sym, env, w, c3);
    RanTrans(w, c, c3, c4, c3.pc, c4.pc, env, env2, sym, id, rid);
    c' := LogicalAndRight(w, c, c4, id, bb, l, r, b, env2, sym, id);
  }

  /** A zero left side ends the expression, otherwise the right side is next. */
  lemma LogicalAndLeft(w: World, c: Config, c2: Config, slot: nat, bb: nat, l: Frag, r: Frag, a: int,
                       env: Env, sym: SymbolTable, id: nat) returns (c': Config)
    requires UniqueLabels(w.code) && At(w.code, c.pc, LogicalAndCode(slot, bb, l, r).code)
    requires Ran(w, c, c2, c.pc + 1 + |l.code|, env, sym, id) && id <= slot < l.id && id <= r.id
    requires Read(w, l.val, c2) == Some(if l.val.CmpResult? then Truth(a == 0) else a)
    ensures var f := LogicalAndCode(slot, bb, l, r);
            if a == 0 then
              Ran(w, c, c', c.pc + |f.code|, env, sym, id) && Read(w, f.val, c') == Some(0)
            else
              Ran(w, c, c', c.pc + 1 + |l.code| + |BranchIfZero(l.val, l.id, bb + 2)| + 1, env, sym, id)
  {
    hide Reaches, Agrees, Below, Keeps, At, UniqueLabels, Step, Goto, Define, Wrap, BinValue;
    LogicalAndLayout(w.code, c.pc, slot, bb, l, r);
    hide Tested, BranchIfZero;
    var t := c.pc + |LogicalAndCode(slot, bb, l, r).code| - 8;
    var c3 := RunBranch(w, c, c2, l.val, l.id, bb + 2, t + 3, a, env, sym, id);
    if a == 0 {
      c' := LogicalAndFalse(w, c, c3, slot, bb + 2, bb + 3, IdAfterBranch(r.val, r.id), t, env, sym, id);
    } else {
      c' := RunLabel(w, c, c3, bb, env, sym, id);
    }
  }

  lemma LogicalAndRight(w: World, c: Config, c4: Config, slot: nat, bb: nat, l: Frag, r: Frag, b: int,
                        env: Env, sym: SymbolTable, id: nat) returns (c': Config)
    requires UniqueLabels(w.code) && At(w.code, c.pc, LogicalAndCode(slot, bb, l, r).code)
    requires Ran(w, c, c4, c.pc + 1 + |l.code| + |BranchIfZero(l.val, l.id, bb + 2)| + 1 + |r.code|, env, sym, id)
    requires id <= slot && id <= r.id
    requires Read(w, r.val, c4) == Some(if r.val.CmpResult? then Truth(b == 0) else b)
    ensures var f := LogicalAndCode(slot, bb, l, r);
            Ran(w, c, c', c.pc + |f.code|, env, sym, id) && Read(w, f.val, c') == Some(Truth(b != 0))
  {
    hide Reaches, Agrees, Below, Keeps, At, UniqueLabels, Step, Goto, Define, Wrap, BinValue;
    LogicalAndLayout(w.code, c.pc, slot, bb, l, r);
    hide Tested, BranchIfZero;
    var t := c.pc + |LogicalAndCode(slot, bb, l, r).code| - 8;
    var load := IdAfterBranch(r.val, r.id);
    var c6 := RunBranch(w, c, c4, r.val, r.id, bb + 2, t + 3, b, env, sym, id);
    if b == 0 {
      c' := LogicalAndFalse(w, c, c6, slot, bb + 2, bb + 3, load, t, env, sym, id);
    } else {
      var c7 := RunLabel(w, c, c6, bb + 1, env, sym, id);
      var c8 := RunStoreTemporary(w, c, c7, Const(1), slot, 1, env, sym, id);
      var c9 := RunJump(w, c, c8, bb + 3, t + 6, env, sym, id);
      var c10 := RunLabel(w, c, c9, bb + 3, env, sym, id);
      c' := RunLoad(w, c, c10, load, slot, 1, env, sym, id);
    }
  }

  /** The exit of `&&` when either side is zero. */
  lemma LogicalAndFalse(w: World, c: Config, c3: Config, slot: nat, no: nat, end: nat, load: nat, p: nat,
                        env: Env, sym: SymbolTable, id: nat) returns (c': Config)
    requires Ran(w, c, c3, p + 3, env, sym, id) && UniqueLabels(w.code) && id <= slot && id <= load
    requires At(w.code, p + 3, [Label(no)]) && At(w.code, p + 4, [Store(Const(0), slot)]) &&
             At(w.code, p + 5, [Jump(end)])
    requires At(w.code, p + 6, [Label(end)]) && At(w.code, p + 7, [Load(load, slot)])
    ensures Ran(w, c, c', p + 8, env, sym, id)
    ensures Read(w, Reg(load), c') == Some(0)
  {
    var c4 := RunLabel(w, c, c3, no, env, sym, id);
    var c5 := RunStoreTemporary(w, c, c4, Const(0), slot, 0, env, sym, id);
    var c6 := RunJump(w, c, c5, end, p + 6, env, sym, id);
    var c7 := RunLabel(w, c, c6, end, env, sym, id);
    c' := RunLoad(w, c, c7, load, slot, 0, env, sym, id);
  }

  // ------------------------------------------------------------ `?:`

  lemma TernaryLayout(code: seq<Instr>, p: nat, bb: nat, c: Frag, t: Frag, f: Frag)
    requires At(code, p, TernaryCode(bb, c, t, f).code)
    ensures var yes, no, end, slot := bb, bb + 1, bb + 2, t.id;
            var branch := BranchIfZero(c.val, c.id, no);
            var q := p + |c.code| + |branch|;
            var m := q + 1 + |t.code|;
            var k := m + 3 + |f.code|;
            && p + |TernaryCode(bb, c, t, f).code| == k + 3
            && At(code, p, Tested(c) + branch)
            && At(code, q, [Label(yes)])
            && At(code, q + 1, t.code)
            && At(code, m, [Store(t.val, slot)])
            && At(code, m + 1, [Jump(end)])
            && At(code, m + 2, [Label(no)])
            && At(code, m + 3, f.code)
            && At(code, k, [Store(f.val, slot)])
            && At(code, k + 1, [Jump(end)])
            && At(code, k + 2, [Label(end)])
  {
    hide At, Tested, BranchIfZero;
    var yes, no, end, slot := bb, bb + 1, bb + 2, t.id;
    var test := Tested(c) + BranchIfZero(c.val, c.id, no);
    var front := test + [Label(yes)] + t.code + [Store(t.val, slot), Jump(end), Label(no)];
    var tail := [Store(f.val, slot), Jump(end), Label(end)];
    AtAppend(code, p, front + f.code, tail);
    AtAppend(code, p, front, f.code);
    AtAppend4(code, p, test, [Label(yes)], t.code, [Store(t.val, slot), Jump(end), Label(no)]);
    var m := p + |test| + 1 + |t.code|;
    AtThree(code, m, Store(t.val, slot), Jump(end), Label(no));
    AtThree(code, m + 3 + |f.code|, Store(f.val, slot), Jump(end), Label(end));
  }

  lemma TernaryRuns(e: Expr, id: nat, bb: nat, sym: SymbolTable, env: Env, w: World, c: Config) returns (c': Config)
    requires e.Ternary? && Safe(e) && Eval(e, env).Value?
    requires Ready(w, c, Lower(e, id, bb, sym).code, env, sym, id)
    ensures var f := Lower(e, id, bb, sym);
            && Ran(w, c, c', c.pc + |f.code|, Eval(e, env).env, sym, id)
            && Read(w, f.val, c') == Some(Eval(e, env).v)
    decreases e, 2
  {
    hide Reaches, Agrees, Below, Keeps, At, UniqueLabels, TernaryCode;
    hide Truth, HasValue, Wrap, BinValue, Holds, VarCode, MinusCode, PostCode, AssignCode, OpAssignCode;
    hide BinaryCode, CompareCode, NotCode, LogicalAndCode, MakeOperands, Fresh, ReturnsCompare;
    if Eval(e.c, env).v != 0 {
      c' := SelectRuns(e, e.c, e.t, e.f, e.t, id, bb, sym, env, w, c);
    } else {
      c' := SelectRuns(e, e.c, e.t, e.f, e.f, id, bb, sym, env, w, c);
    }
  }

  /** The condition selects the arm that runs. */
  lemma SelectRuns(e: Expr, c: Expr, t: Expr, f: Expr, arm: Expr, id: nat, bb: nat, sym: SymbolTable, env: Env,
                   w: World, s: Config) returns (s': Config)
    requires c < e && Safe(c) && Testable(c) && Eval(c, env).Value?
    requires arm == if Eval(c, env).v != 0 then t else f
    requires arm < e && Safe(arm) && Eval(arm, Eval(c, env).env).Value?
    requires var fc := Lower(c, id, bb + 3, sym);
             var ft := Lower(t, IdAfterBranch(fc.val, fc.id), fc.bb, sym);
             var ff := Lower(f, ft.id + 1, ft.bb, sym);
             Ready(w, s, TernaryCode(bb, fc, ft, ff).code, env, sym, id)
    ensures var fc := Lower(c, id, bb + 3, sym);
            var ft := Lower(t, IdAfterBranch(fc.val, fc.id), fc.bb, sym);
            var ff := Lower(f, ft.id + 1, ft.bb, sym);
            var r := TernaryCode(bb, fc, ft, ff);
            && Ran(w, s, s', s.pc + |r.code|, Eval(arm, Eval(c, env).env).env, sym, id)
            && Read(w, r.val, s') == Some(Eval(arm, Eval(c, env).env).v)
    decreases e, 1
  {
    hide Reaches, Agrees, Below, Keeps, At, UniqueLabels, Step, Goto, Define, Wrap, BinValue, Eval, Lower, Safe,
      TernaryCode, Tested, BranchIfZero;
    var fc := Lower(c, id, bb + 3, sym);
    var tid := IdAfterBranch(fc.val, fc.id);
    var ft := Lower(t, tid, fc.bb, sym);
    var ff := Lower(f, ft.id + 1, ft.bb, sym);
    TernaryLayout(w.code, s.pc, bb, fc, ft, ff);
    var q := s.pc + |fc.code| + |BranchIfZero(fc.val, fc.id, bb + 1)|;
    var m := q + 1 + |ft.code|;
    var k := m + 3 + |ff.code|;
    var env1 := Eval(c, env).env;
    var s1 := ConditionRuns(c, id, bb + 3, bb + 1, m + 2, sym, env, w, s);
    if Eval(c, env).v != 0 {
      s' := ArmRuns(e, t, tid, fc.bb, bb, q, m, bb + 2, k + 2, ft.id, env1, sym, id, w, s, s1);
    } else {
      s' := ArmRuns(e, f, ft.id + 1, ft.bb, bb + 1, m + 2, k, bb + 2, k + 2, ft.id, env1, sym, id, w, s, s1);
    }
  }

  /** One arm: its label at q, its code, the store of its value to the result
      slot at k, and the jump to the end at p. */
  lemma ArmRuns(e: Expr, arm: Expr, aid: nat, abb: nat, entry: nat, q: nat, k: nat, end: nat, p: nat, slot: nat,
                env: Env, sym: SymbolTable, id: nat, w: World, c: Config, c1: Config) returns (c': Config)
    requires arm < e && Safe(arm) && Eval(arm, env).Value? && UniqueLabels(w.code)
    requires id <= aid && id <= slot && Ran(w, c, c1, q, env, sym, id)
    requires var f := Lower(arm, aid, abb, sym);
             && At(w.code, q, [Label(entry)]) && At(w.code, q + 1, f.code) && k == q + 1 + |f.code|
             && At(w.code, k, [Store(f.val, slot)]) && At(w.code, k + 1, [Jump(end)]) && At(w.code, p, [Label(end)])
             && k + 1 < p
    ensures Ran(w, c, c', p + 1, Eval(arm, env).env, sym, id)
    ensures Read(w, Slot(slot), c') == Some(Eval(arm, env).v)
    decreases e, 0
  {
    hide Reaches, Agrees, Below, Keeps, At, UniqueLabels, Step, Goto, Define, Wrap, BinValue, Eval, Lower, Safe;
    var f := Lower(arm, aid, abb, sym);
    var v, env2 := Eval(arm, env).v, Eval(arm, env).env;
    var c2 := RunLabel(w, c, c1, entry, env, sym, id);
    BelowLater(sym, id, aid);
    var c3 := ExprRuns(arm, aid, abb, sym, env, w, c2);
    RanTrans(w, c, c2, c3, c2.pc, c3.pc, env, env2, sym, id, aid);
    var c4 := RunStoreTemporary(w, c, c3, f.val, slot, v, env2, sym, id);
    var c5 := RunJump(w, c, c4, end, p, env2, sym, id);
    c' := RunLabel(w, c, c5, end, env2, sym, id);
  }
}
