/** Every stack slot that lowered code names was allocated: the entry block
    reserves it, so that the frame has a place for it. */
module Slots {
  import opened Words
  import opened Source
  import opened IR
  import opened Lowering
  import opened Blocks
  import opened Functions
  import opened Factory

  /** The instruction reads or writes the slot. */
  predicate Names(i: Instr, slot: nat) {
    match i
    case Load(_, s) => s == slot
    case Store(src, s) => s == slot || src == Slot(slot)
    case Bin(_, _, a, b) => a == Slot(slot) || b == Slot(slot)
    case Cmp(_, _, a, b) => a == Slot(slot) || b == Slot(slot)
    case Mov(_, a) => a == Slot(slot)
    case Branch(cond, _) => cond == Slot(slot)
    case Ret(val) => val == Some(Slot(slot))
    case Label(_) => false
    case StackAlloc(_) => false
    case Jump(_) => false
    case JumpToReturn => false
  }

  ghost predicate OnlyNames(code: seq<Instr>, slots: set<nat>) {
    forall i, slot :: i in code && Names(i, slot) ==> slot in slots
  }

  function Elements(allocs: seq<nat>): (r: set<nat>)
    ensures forall s :: s in r <==> s in allocs
  {
    set s | s in allocs
  }

  lemma ElementsAppend(a: seq<nat>, b: seq<nat>)
    ensures Elements(a + b) == Elements(a) + Elements(b)
  {
  }

  lemma OnlyNamesAppend(a: seq<Instr>, b: seq<Instr>, slots: set<nat>)
    ensures OnlyNames(a + b, slots) <==> OnlyNames(a, slots) && OnlyNames(b, slots)
  {
  }

  lemma OnlyNamesWider(code: seq<Instr>, slots: set<nat>, slots': set<nat>)
    requires OnlyNames(code, slots) && slots <= slots'
    ensures OnlyNames(code, slots')
  {
  }

  /** Inverting and patching name the same slots. */
  lemma TestedNames(f: Frag, slots: set<nat>)
    requires OnlyNames(f.code, slots)
    ensures OnlyNames(Tested(f), slots)
  {
    forall i, slot | i in Tested(f) && Names(i, slot)
      ensures slot in slots
    {
      var k :| 0 <= k < |f.code| && Tested(f)[k] == i;
      assert f.code[k] in f.code && Names(f.code[k], slot);
    }
  }

  lemma PatchNames(code: seq<Instr>, ret: nat, slots: set<nat>)
    requires OnlyNames(code, slots)
    ensures OnlyNames(Patch(code, ret), slots)
  {
    forall i, slot | i in Patch(code, ret) && Names(i, slot)
      ensures slot in slots
    {
      var k :| 0 <= k < |code| && Patch(code, ret)[k] == i;
      assert code[k] in code && Names(code[k], slot);
    }
  }

  // ---------------------------------------------------------------------
  // Names that resolve
  // ---------------------------------------------------------------------

  /** Every name in e is known. */
  predicate Resolves(e: Expr, known: set<string>) {
    match e
    case Literal(_) => true
    case Var(x) => x in known
    case Not(e) => Resolves(e, known)
    case Minus(e) => Resolves(e, known)
    case Post(x, _) => x in known
    case Binary(_, l, r) => Resolves(l, known) && Resolves(r, known)
    case Compare(_, l, r) => Resolves(l, known) && Resolves(r, known)
    case LogicalAnd(l, r) => Resolves(l, known) && Resolves(r, known)
    case Assign(x, e) => x in known && Resolves(e, known)
    case OpAssign(_, x, e) => x in known && Resolves(e, known)
    case Ternary(c, t, f) => Resolves(c, known) && Resolves(t, known) && Resolves(f, known)
  }

  /** The names declared anywhere in s; the symbol table never forgets one. */
  function Introduced(s: Stmt): set<string> {
    match s
    case Decl(x, _) => {x}
    case Compound(ss) => ListIntroduced(ss)
    case If(_, thn) => Introduced(thn)
    case IfElse(_, thn, els) => Introduced(thn) + Introduced(els)
    case While(_, loop, _) => Introduced(loop)
    case For(start, _, _, loop) => Introduced(start) + Introduced(loop)
    case Switch(_, cases) => CasesIntroduced(cases)
    case _ => {}
  }

  function ListIntroduced(ss: Stmts): set<string> {
    match ss
    case Nil => {}
    case Cons(s, rest) => Introduced(s) + ListIntroduced(rest)
  }

  function CasesIntroduced(cases: Cases): set<string> {
    match cases
    case Default(ss) => ListIntroduced(ss)
    case Case(_, ss, rest) => ListIntroduced(ss) + CasesIntroduced(rest)
  }

  /** Every name is declared before it is used. */
  predicate StmtResolves(s: Stmt, known: set<string>) {
    match s
    case ExprStmt(e) => Resolves(e, known)
    case Decl(_, init) => init.Some? ==> Resolves(init.value, known)
    case Compound(ss) => ListResolves(ss, known)
    case If(c, thn) => Resolves(c, known) && StmtResolves(thn, known)
    case IfElse(c, thn, els) =>
      Resolves(c, known) && StmtResolves(thn, known) && StmtResolves(els, known + Introduced(thn))
    case While(c, loop, _) => Resolves(c, known) && StmtResolves(loop, known)
    case For(start, c, step, loop) =>
      var inside := known + Introduced(start);
      StmtResolves(start, known) && Resolves(c, inside) && StmtResolves(loop, inside)
      && Resolves(step, inside + Introduced(loop))
    case Switch(c, cases) => Resolves(c, known) && CasesResolve(cases, known)
    case Break => true
    case Continue => true
    case Return(ret) => ret.Some? ==> Resolves(ret.value, known)
  }

  predicate ListResolves(ss: Stmts, known: set<string>) {
    match ss
    case Nil => true
    case Cons(s, rest) => StmtResolves(s, known) && ListResolves(rest, known + Introduced(s))
  }

  predicate CasesResolve(cases: Cases, known: set<string>) {
    match cases
    case Default(ss) => ListResolves(ss, known)
    case Case(_, ss, rest) => ListResolves(ss, known) && CasesResolve(rest, known + ListIntroduced(ss))
  }

  // ---------------------------------------------------------------------
  // Expressions
  // ---------------------------------------------------------------------

  /** The code and the result name slots that were there before or that the
      code allocates. */
  ghost predicate Covers(f: Frag, slots: set<nat>) {
    && OnlyNames(f.code, slots + Elements(f.allocs))
    && (f.val.Slot? ==> f.val.id in slots + Elements(f.allocs))
  }

  lemma CoversLater(f: Frag, allocs: seq<nat>, slots: set<nat>)
    requires Covers(f, slots) && forall s :: s in f.allocs ==> s in slots || s in allocs
    ensures OnlyNames(f.code, slots + Elements(allocs)) && OnlyNames(Tested(f), slots + Elements(allocs))
    ensures f.val.Slot? ==> f.val.id in slots + Elements(allocs)
  {
    OnlyNamesWider(f.code, slots + Elements(f.allocs), slots + Elements(allocs));
    TestedNames(f, slots + Elements(allocs));
  }

  lemma SlotOfKnown(sym: SymbolTable, x: string)
    requires x in sym
    ensures SlotOf(sym, x) in sym.Values
  {
  }

  lemma OnlyNamesAppend5(a: seq<Instr>, b: seq<Instr>, c: seq<Instr>, d: seq<Instr>, e: seq<Instr>, slots: set<nat>)
    requires OnlyNames(a, slots) && OnlyNames(b, slots) && OnlyNames(c, slots) && OnlyNames(d, slots)
    requires OnlyNames(e, slots)
    ensures OnlyNames(a + b + c + d, slots) && OnlyNames(a + b + c + d + e, slots)
  {
    hide OnlyNames;
    OnlyNamesAppend(a, b, slots);
    OnlyNamesAppend(a + b, c, slots);
    OnlyNamesAppend(a + b + c, d, slots);
    OnlyNamesAppend(a + b + c + d, e, slots);
  }

  lemma OnlyNamesAppend7(a: seq<Instr>, b: seq<Instr>, c: seq<Instr>, d: seq<Instr>, e: seq<Instr>, f: seq<Instr>,
                         g: seq<Instr>, slots: set<nat>)
    requires OnlyNames(a, slots) && OnlyNames(b, slots) && OnlyNames(c, slots) && OnlyNames(d, slots)
    requires OnlyNames(e, slots) && OnlyNames(f, slots) && OnlyNames(g, slots)
    ensures OnlyNames(a + b + c + d + e + f + g, slots)
  {
    hide OnlyNames;
    OnlyNamesAppend5(a, b, c, d, e, slots);
    OnlyNamesAppend(a + b + c + d + e, f, slots);
    OnlyNamesAppend(a + b + c + d + e + f, g, slots);
  }

  /** Labels and jumps name nothing. */
  lemma NoneNamed(code: seq<Instr>, slots: set<nat>)
    requires forall i :: i in code ==> i.Label? || i.Jump? || i.JumpToReturn?
    ensures OnlyNames(code, slots)
  {
  }

  lemma StoreNames(val: Operand, slot: nat, slots: set<nat>)
    requires slot in slots && (val.Slot? ==> val.id in slots)
    ensures OnlyNames([Store(val, slot)], slots)
  {
  }

  lemma LoadNames(id: nat, slot: nat, slots: set<nat>)
    requires slot in slots
    ensures OnlyNames([Load(id, slot)], slots)
  {
  }

  lemma BranchNames(val: Operand, id: nat, target: nat, slots: set<nat>)
    requires val.Slot? ==> val.id in slots
    ensures OnlyNames(BranchIfZero(val, id, target), slots)
  {
  }

  /** An arm's end: its value is stored, and a jump and a label follow. */
  lemma ArmNames(val: Operand, slot: nat, end: nat, next: nat, slots: set<nat>)
    requires slot in slots && (val.Slot? ==> val.id in slots)
    ensures OnlyNames([Store(val, slot), Jump(end), Label(next)], slots)
  {
    NoneNamed([Jump(end), Label(next)], slots);
    StoreNames(val, slot, slots);
    OnlyNamesAppend([Store(val, slot)], [Jump(end), Label(next)], slots);
    assert [Store(val, slot)] + [Jump(end), Label(next)] == [Store(val, slot), Jump(end), Label(next)];
  }

  lemma NotCovers(f: Frag, slots: set<nat>)
    requires Covers(f, slots)
    ensures Covers(NotCode(f), slots)
  {
    var slot, yes, end, allocs := f.id, f.bb, f.bb + 1, f.allocs + [f.id];
    var all := slots + Elements(allocs);
    CoversLater(f, allocs, slots);
    StoreNames(Const(1), slot, all);
    BranchNames(f.val, slot + 1, end, all);
    var load := Load(IdAfterBranch(f.val, slot + 1), slot);
    LoadNames(load.id, slot, all);
    ArmNames(Const(0), slot, end, end, all);
    NoneNamed([Label(yes)], all);
    OnlyNamesAppend5([Label(yes)], [Store(Const(0), slot), Jump(end), Label(end)], [load], [], [], all);
    hide OnlyNames, Tested, BranchIfZero;
    assert [Label(yes)] + [Store(Const(0), slot), Jump(end), Label(end)] + [load] + []
        == [Label(yes), Store(Const(0), slot), Jump(end), Label(end), load];
    NotParts(f);
    OnlyNamesAppend5(Tested(f), [Store(Const(1), slot)], BranchIfZero(f.val, slot + 1, end),
      [Label(yes), Store(Const(0), slot), Jump(end), Label(end), load], [], all);
  }

  lemma LogicalAndCovers(slot: nat, bb: nat, l: Frag, r: Frag, slots: set<nat>)
    requires Covers(l, slots) && Covers(r, slots)
    ensures Covers(LogicalAndCode(slot, bb, l, r), slots)
  {
    var rhs, yes, no, end, allocs := bb, bb + 1, bb + 2, bb + 3, [slot] + l.allocs + r.allocs;
    var all := slots + Elements(allocs);
    CoversLater(l, allocs, slots);
    CoversLater(r, allocs, slots);
    StoreNames(Const(0), slot, all);
    BranchNames(l.val, l.id, no, all);
    BranchNames(r.val, r.id, no, all);
    NoneNamed([Label(rhs)], all);
    NoneNamed([Label(yes)], all);
    var load := Load(IdAfterBranch(r.val, r.id), slot);
    LoadNames(load.id, slot, all);
    ArmNames(Const(1), slot, end, no, all);
    ArmNames(Const(0), slot, end, end, all);
    hide OnlyNames, Tested, BranchIfZero;
    OnlyNamesAppend5([Label(yes)], [Store(Const(1), slot), Jump(end), Label(no)],
      [Store(Const(0), slot), Jump(end), Label(end)], [load], [load], all);
    var tail := [Label(yes), Store(Const(1), slot), Jump(end), Label(no), Store(Const(0), slot), Jump(end),
                 Label(end), load];
    assert [Label(yes)] + [Store(Const(1), slot), Jump(end), Label(no)] + [Store(Const(0), slot), Jump(end), Label(end)]
           + [load] == tail;
    LogicalAndParts(slot, bb, l, r);
    OnlyNamesAppend7([Store(Const(0), slot)], Tested(l), BranchIfZero(l.val, l.id, no), [Label(rhs)], Tested(r),
      BranchIfZero(r.val, r.id, no), tail, all);
  }

  lemma TernaryCovers(bb: nat, c: Frag, t: Frag, f: Frag, slots: set<nat>)
    requires Covers(c, slots) && Covers(t, slots) && Covers(f, slots)
    ensures Covers(TernaryCode(bb, c, t, f), slots)
  {
    var yes, no, end, slot, allocs := bb, bb + 1, bb + 2, t.id, c.allocs + t.allocs + [t.id] + f.allocs;
    var all := slots + Elements(allocs);
    CoversLater(c, allocs, slots);
    CoversLater(t, allocs, slots);
    CoversLater(f, allocs, slots);
    BranchNames(c.val, c.id, no, all);
    NoneNamed([Label(yes)], all);
    ArmNames(t.val, slot, end, no, all);
    ArmNames(f.val, slot, end, end, all);
    hide OnlyNames, Tested, BranchIfZero;
    TernaryParts(bb, c, t, f);
    OnlyNamesAppend7(Tested(c), BranchIfZero(c.val, c.id, no), [Label(yes)], t.code,
      [Store(t.val, slot), Jump(end), Label(no)], f.code, [Store(f.val, slot), Jump(end), Label(end)], all);
  }

  predicate OperandIn(o: Operand, slots: set<nat>) {
    o.Slot? ==> o.id in slots
  }

  lemma ComputeNames(id: nat, op: BinOp, rel: CompRel, a: Operand, b: Operand, slots: set<nat>)
    requires OperandIn(a, slots) && OperandIn(b, slots)
    ensures OnlyNames([Bin(id, op, a, b)], slots) && OnlyNames([Cmp(id, rel, a, b)], slots)
    ensures OnlyNames([Mov(id, a)], slots)
  {
  }

  lemma OperandsCovered(l: Frag, r: Frag, commutative: bool, slots: set<nat>)
    requires Covers(l, slots) && Covers(r, slots)
    ensures var o, all := MakeOperands(l, r, commutative), slots + Elements(l.allocs + r.allocs);
            && OnlyNames(o.code, all) && OperandIn(o.a, all) && OperandIn(o.b, all)
            && o.allocs == l.allocs + r.allocs
  {
    var all := slots + Elements(l.allocs + r.allocs);
    CoversLater(l, l.allocs + r.allocs, slots);
    CoversLater(r, l.allocs + r.allocs, slots);
    OnlyNamesAppend(l.code, r.code, all);
    ComputeNames(r.id, ADD, EQ, l.val, l.val, all);
    ComputeNames(r.id, ADD, EQ, r.val, r.val, all);
    OnlyNamesAppend(l.code + r.code, [Mov(r.id, l.val)], all);
    OnlyNamesAppend(l.code + r.code, [Mov(r.id, r.val)], all);
    hide OnlyNames, Covers;
  }

  lemma PairCovers(l: Frag, r: Frag, op: BinOp, rel: CompRel, commutative: bool, slots: set<nat>)
    requires Covers(l, slots) && Covers(r, slots)
    ensures var o := MakeOperands(l, r, commutative);
            Covers(BinaryCode(op, o), slots) && Covers(CompareCode(rel, o), slots)
  {
    hide OnlyNames, MakeOperands;
    var o := MakeOperands(l, r, commutative);
    OperandsCovered(l, r, commutative, slots);
    ComputeNames(o.id, op, rel, o.a, o.b, slots + Elements(o.allocs));
    OnlyNamesAppend(o.code, [Bin(o.id, op, o.a, o.b)], slots + Elements(o.allocs));
    OnlyNamesAppend(o.code, [Cmp(o.id, rel, o.a, o.b)], slots + Elements(o.allocs));
  }

  lemma SimpleCovers(id: nat, bb: nat, slot: nat, increment: bool, slots: set<nat>)
    requires slot in slots
    ensures Covers(VarCode(id, bb, slot), slots) && Covers(PostCode(id, bb, slot, increment), slots)
  {
  }

  lemma ExtendCovers(f: Frag, op: BinOp, slot: nat, slots: set<nat>)
    requires Covers(f, slots)
    ensures Covers(MinusCode(f), slots)
    ensures slot in slots ==> Covers(AssignCode(f, slot), slots) && Covers(OpAssignCode(op, f, slot), slots)
  {
    var all, sum := slots + Elements(f.allocs), Bin(f.id + 1, op, Reg(f.id), f.val);
    ComputeNames(f.id, SUB, EQ, Const(0), f.val, all);
    OnlyNamesAppend(f.code, [Bin(f.id, SUB, Const(0), f.val)], all);
    if slot in slots {
      StoreNames(f.val, slot, all);
      OnlyNamesAppend(f.code, [Store(f.val, slot)], all);
      LoadNames(f.id, slot, all);
      ComputeNames(f.id + 1, op, EQ, Reg(f.id), f.val, all);
      StoreNames(Reg(f.id + 1), slot, all);
      hide OnlyNames;
      OnlyNamesAppend5(f.code, [Load(f.id, slot)], [sum], [Store(Reg(f.id + 1), slot)], [sum], all);
      assert f.code + [Load(f.id, slot)] + [sum] + [Store(Reg(f.id + 1), slot)]
          == f.code + [Load(f.id, slot), sum, Store(Reg(f.id + 1), slot)];
    }
  }

  lemma ConstCovers(n: int, id: nat, bb: nat, slots: set<nat>)
    ensures Covers(Frag([], Const(n), id, bb, []), slots)
  {
  }

  lemma {:induction false} ExprCovers(e: Expr, id: nat, bb: nat, sym: SymbolTable, slots: set<nat>)
    requires Resolves(e, sym.Keys) && sym.Values <= slots
    ensures Covers(Lower(e, id, bb, sym), slots)
    decreases e
  {
    hide Covers, NotCode, LogicalAndCode, TernaryCode, MakeOperands, BinaryCode, CompareCode, MinusCode, AssignCode,
      OpAssignCode, PostCode, VarCode, SlotOf;
    match e
    case Literal(n) => ConstCovers(n, id, bb, slots);
    case Var(x) =>
      SlotOfKnown(sym, x);
      SimpleCovers(id, bb, SlotOf(sym, x), true, slots);
    case Not(e1) =>
      ExprCovers(e1, id, bb, sym, slots);
      NotCovers(Lower(e1, id, bb, sym), slots);
    case Minus(e1) =>
      ExprCovers(e1, id, bb, sym, slots);
      ExtendCovers(Lower(e1, id, bb, sym), SUB, 0, slots);
      if e1.Literal? { ConstCovers(-e1.n, id, bb, slots); }
    case Post(x, increment) =>
      SlotOfKnown(sym, x);
      SimpleCovers(id, bb, SlotOf(sym, x), increment, slots);
    case Binary(op, l, r) =>
      var fl := Lower(l, id, bb, sym);
      ExprCovers(l, id, bb, sym, slots);
      ExprCovers(r, fl.id, fl.bb, sym, slots);
      PairCovers(fl, Lower(r, fl.id, fl.bb, sym), op, EQ, CommutativeOp(op), slots);
    case Compare(rel, l, r) =>
      var fl := Lower(l, id, bb, sym);
      ExprCovers(l, id, bb, sym, slots);
      ExprCovers(r, fl.id, fl.bb, sym, slots);
      PairCovers(fl, Lower(r, fl.id, fl.bb, sym), ADD, rel, CommutativeRel(rel), slots);
    case LogicalAnd(l, r) =>
      var fl := Lower(l, id + 1, bb + 4, sym);
      var rid := IdAfterBranch(fl.val, fl.id);
      ExprCovers(l, id + 1, bb + 4, sym, slots);
      ExprCovers(r, rid, fl.bb, sym, slots);
      LogicalAndCovers(id, bb, fl, Lower(r, rid, fl.bb, sym), slots);
    case Assign(x, e1) =>
      SlotOfKnown(sym, x);
      ExprCovers(e1, id, bb, sym, slots);
      ExtendCovers(Lower(e1, id, bb, sym), ADD, SlotOf(sym, x), slots);
    case OpAssign(op, x, e1) =>
      SlotOfKnown(sym, x);
      ExprCovers(e1, id, bb, sym, slots);
      ExtendCovers(Lower(e1, id, bb, sym), op, SlotOf(sym, x), slots);
    case Ternary(c, t, f) =>
      var fc := Lower(c, id, bb + 3, sym);
      var tid := IdAfterBranch(fc.val, fc.id);
      var ft := Lower(t, tid, fc.bb, sym);
      ExprCovers(c, id, bb + 3, sym, slots);
      ExprCovers(t, tid, fc.bb, sym, slots);
      ExprCovers(f, ft.id + 1, ft.bb, sym, slots);
      TernaryCovers(bb, fc, ft, Lower(f, ft.id + 1, ft.bb, sym), slots);
  }

  // ---------------------------------------------------------------------
  // Statements
  // ---------------------------------------------------------------------

  /** Likewise, and every name known afterwards stands for such a slot. */
  ghost predicate StmtCovers(f: StmtFrag, slots: set<nat>, known: set<string>) {
    && OnlyNames(f.code, slots + Elements(f.allocs))
    && f.sym.Values <= slots + Elements(f.allocs) && f.sym.Keys == known
  }

  /** The part f of a statement whose allocations are among all. */
  lemma StmtCoversLater(f: StmtFrag, known: set<string>, slots: set<nat>, all: set<nat>)
    requires StmtCovers(f, slots, known) && slots + Elements(f.allocs) <= all
    ensures OnlyNames(f.code, all) && f.sym.Values <= all && f.sym.Keys == known
  {
    OnlyNamesWider(f.code, slots + Elements(f.allocs), all);
  }

  lemma FragCoversLater(f: Frag, slots: set<nat>, all: set<nat>)
    requires Covers(f, slots) && slots + Elements(f.allocs) <= all
    ensures OnlyNames(f.code, all) && OnlyNames(Tested(f), all) && OperandIn(f.val, all)
  {
    OnlyNamesWider(f.code, slots + Elements(f.allocs), all);
    TestedNames(f, all);
  }

  /** A condition and its branch. */
  lemma TestNames(f: Frag, target: nat, slots: set<nat>, all: set<nat>)
    requires Covers(f, slots) && slots + Elements(f.allocs) <= all
    ensures OnlyNames(Tested(f) + BranchIfZero(f.val, f.id, target), all)
  {
    FragCoversLater(f, slots, all);
    BranchNames(f.val, f.id, target, all);
    OnlyNamesAppend(Tested(f), BranchIfZero(f.val, f.id, target), all);
  }

  lemma IfCovers(end: nat, c: Frag, yes: nat, t: StmtFrag, slots: set<nat>, known: set<string>)
    requires Covers(c, slots) && StmtCovers(t, slots + Elements(c.allocs), known)
    ensures StmtCovers(IfCode(end, c, yes, t), slots, known)
  {
    var all := slots + Elements(c.allocs + t.allocs);
    ElementsAppend(c.allocs, t.allocs);
    TestNames(c, end, slots, all);
    StmtCoversLater(t, known, slots + Elements(c.allocs), all);
    NoneNamed([Label(yes)], all);
    NoneNamed([Jump(end), Label(end)], all);
    hide OnlyNames, Tested, BranchIfZero;
    IfParts(end, c, yes, t);
    OnlyNamesAppend5(Tested(c) + BranchIfZero(c.val, c.id, end), [Label(yes)], t.code, [Jump(end), Label(end)], [],
      all);
  }

  lemma IfElseCovers(bb: nat, c: Frag, yes: nat, t: StmtFrag, e: StmtFrag, slots: set<nat>, known: set<string>,
                     known': set<string>)
    requires Covers(c, slots) && StmtCovers(t, slots + Elements(c.allocs), known)
    requires StmtCovers(e, slots + Elements(c.allocs) + Elements(t.allocs), known')
    ensures StmtCovers(IfElseCode(bb, c, yes, t, e), slots, known')
  {
    var all := slots + Elements(c.allocs + t.allocs + e.allocs);
    ElementsAppend(c.allocs, t.allocs);
    ElementsAppend(c.allocs + t.allocs, e.allocs);
    TestNames(c, bb, slots, all);
    StmtCoversLater(t, known, slots + Elements(c.allocs), all);
    StmtCoversLater(e, known', slots + Elements(c.allocs) + Elements(t.allocs), all);
    NoneNamed([Label(yes)], all);
    NoneNamed([Jump(bb + 1), Label(bb)], all);
    NoneNamed([Jump(bb + 1), Label(bb + 1)], all);
    OnlyNamesAppend(e.code, [Jump(bb + 1), Label(bb + 1)], all);
    hide OnlyNames, Tested, BranchIfZero;
    IfElseParts(bb, c, yes, t, e);
    OnlyNamesAppend5(Tested(c) + BranchIfZero(c.val, c.id, bb), [Label(yes)], t.code, [Jump(bb + 1), Label(bb)],
      e.code + [Jump(bb + 1), Label(bb + 1)], all);
  }

  lemma WhileCovers(bb: nat, c: Frag, s: StmtFrag, slots: set<nat>, known: set<string>)
    requires Covers(c, slots) && StmtCovers(s, slots + Elements(c.allocs), known)
    ensures StmtCovers(WhileCode(bb, c, s), slots, known)
  {
    var all := slots + Elements(c.allocs + s.allocs);
    ElementsAppend(c.allocs, s.allocs);
    TestNames(c, bb + 2, slots, all);
    StmtCoversLater(s, known, slots + Elements(c.allocs), all);
    NoneNamed([Jump(bb), Label(bb)], all);
    NoneNamed([Label(bb + 1)], all);
    NoneNamed([Jump(bb), Label(bb + 2)], all);
    hide OnlyNames, Tested, BranchIfZero;
    WhileParts(bb, c, s);
    OnlyNamesAppend5([Jump(bb), Label(bb)], Tested(c) + BranchIfZero(c.val, c.id, bb + 2), [Label(bb + 1)], s.code,
      [Jump(bb), Label(bb + 2)], all);
  }

  lemma ForCovers(bb: nat, start: StmtFrag, c: Frag, s: StmtFrag, step: Frag, slots: set<nat>, known: set<string>,
                  known': set<string>)
    requires StmtCovers(start, slots, known) && Covers(c, slots + Elements(start.allocs))
    requires StmtCovers(s, slots + Elements(start.allocs) + Elements(c.allocs), known')
    requires Covers(step, slots + Elements(start.allocs) + Elements(c.allocs) + Elements(s.allocs))
    ensures StmtCovers(ForCode(bb, start, c, s, step), slots, known')
  {
    var all := slots + Elements(start.allocs + c.allocs + s.allocs + step.allocs);
    ElementsAppend(start.allocs, c.allocs);
    ElementsAppend(start.allocs + c.allocs, s.allocs);
    ElementsAppend(start.allocs + c.allocs + s.allocs, step.allocs);
    StmtCoversLater(start, known, slots, all);
    TestNames(c, bb + 3, slots + Elements(start.allocs), all);
    StmtCoversLater(s, known', slots + Elements(start.allocs) + Elements(c.allocs), all);
    FragCoversLater(step, slots + Elements(start.allocs) + Elements(c.allocs) + Elements(s.allocs), all);
    NoneNamed([Jump(bb), Label(bb)], all);
    NoneNamed([Label(bb + 1)], all);
    NoneNamed([Jump(bb + 2), Label(bb + 2)], all);
    NoneNamed([Jump(bb), Label(bb + 3)], all);
    OnlyNamesAppend(step.code, [Jump(bb), Label(bb + 3)], all);
    hide OnlyNames, Tested, BranchIfZero;
    ForParts(bb, start, c, s, step);
    OnlyNamesAppend7(start.code, [Jump(bb), Label(bb)], Tested(c) + BranchIfZero(c.val, c.id, bb + 3), [Label(bb + 1)],
      s.code, [Jump(bb + 2), Label(bb + 2)], step.code + [Jump(bb), Label(bb + 3)], all);
  }

  lemma {:induction false} TestsName(cases: Cases, val: Operand, id: nat, k: nat, slots: set<nat>)
    requires OperandIn(val, slots)
    ensures OnlyNames(CaseTests(cases, val, id, k), slots)
  {
    if cases.Case? {
      var rest := CaseTests(cases.rest, val, id + 1, if cases.stmts.Nil? then k else k + 1);
      TestsName(cases.rest, val, id + 1, if cases.stmts.Nil? then k else k + 1, slots);
      OnlyNamesAppend([Cmp(id, EQ, val, Const(cases.k)), Branch(CmpResult(id), k)], rest, slots);
    }
  }

  lemma SwitchCovers(bb: nat, c: Frag, cases: Cases, bodies: StmtFrag, slots: set<nat>, known: set<string>)
    requires Covers(c, slots) && StmtCovers(bodies, slots + Elements(c.allocs), known)
    ensures StmtCovers(SwitchCode(bb, c, cases, bodies), slots, known)
  {
    var all := slots + Elements(c.allocs + bodies.allocs);
    ElementsAppend(c.allocs, bodies.allocs);
    FragCoversLater(c, slots, all);
    StmtCoversLater(bodies, known, slots + Elements(c.allocs), all);
    TestsName(cases, c.val, c.id, c.bb, all);
    NoneNamed([Jump(bb + 1)], all);
    NoneNamed([Label(bb)], all);
    hide OnlyNames, CaseTests;
    SwitchParts(bb, c, cases, bodies, bb);
    OnlyNamesAppend5(c.code, CaseTests(cases, c.val, c.id, c.bb), [Jump(bb + 1)], bodies.code, [Label(bb)], all);
  }

  lemma ReturnCovers(ctx: Context, f: Frag, sym: SymbolTable, hasValue: bool, slots: set<nat>)
    requires Covers(f, slots) && (ctx.merge.Some? ==> ctx.merge.value in slots) && sym.Values <= slots
    ensures StmtCovers(ReturnCode(ctx, f, sym, hasValue), slots, sym.Keys)
  {
    var all := slots + Elements(f.allocs);
    if ctx.merge.Some? {
      StoreNames(f.val, ctx.merge.value, all);
      NoneNamed([JumpToReturn], all);
      OnlyNamesAppend([Store(f.val, ctx.merge.value)], [JumpToReturn], all);
      assert [Store(f.val, ctx.merge.value)] + [JumpToReturn] == [Store(f.val, ctx.merge.value), JumpToReturn];
      OnlyNamesAppend(f.code, [Store(f.val, ctx.merge.value), JumpToReturn], all);
      OnlyNamesAppend(f.code, [JumpToReturn], all);
    } else {
      OnlyNamesAppend(f.code, [Ret(Some(f.val))], all);
      OnlyNamesAppend(f.code, [Ret(None)], all);
    }
  }

  lemma DeclCovers(x: string, init: Option<Expr>, id: nat, bb: nat, sym: SymbolTable, slots: set<nat>)
    requires (init.Some? ==> Resolves(init.value, sym.Keys)) && sym.Values <= slots
    ensures StmtCovers(LowerDecl(x, init, id, bb, sym), slots, sym.Keys + {x})
  {
    hide Resolves, Lower;
    assert sym[x := id].Keys == sym.Keys + {x};
    match init
    case None =>
    case Some(e) =>
      var g := Lower(e, id + 1, bb, sym);
      var all := slots + Elements([id] + g.allocs);
      ExprCovers(e, id + 1, bb, sym, slots);
      CoversLater(g, [id] + g.allocs, slots);
      StoreNames(g.val, id, all);
      OnlyNamesAppend(g.code, [Store(g.val, id)], all);
  }

  lemma NothingCovered(code: seq<Instr>, id: nat, bb: nat, sym: SymbolTable, slots: set<nat>)
    requires sym.Values <= slots && forall i :: i in code ==> i.Label? || i.Jump? || i.JumpToReturn?
    ensures StmtCovers(StmtFrag(code, id, bb, sym, []), slots, sym.Keys)
  {
  }

  lemma ExprStmtCovers(g: Frag, sym: SymbolTable, slots: set<nat>)
    requires Covers(g, slots) && sym.Values <= slots
    ensures StmtCovers(StmtFrag(g.code, g.id, g.bb, sym, g.allocs), slots, sym.Keys)
  {
  }

  /** What a statement's code may rely on. */
  ghost predicate Available(sym: SymbolTable, ctx: Context, slots: set<nat>) {
    sym.Values <= slots && (ctx.merge.Some? ==> ctx.merge.value in slots)
  }

  lemma AvailableAfter(f: StmtFrag, ctx: Context, slots: set<nat>, known: set<string>)
    requires StmtCovers(f, slots, known) && (ctx.merge.Some? ==> ctx.merge.value in slots)
    ensures Available(f.sym, ctx, slots + Elements(f.allocs)) && f.sym.Keys == known
  {
  }

  lemma AvailableLater(sym: SymbolTable, ctx: Context, slots: set<nat>, allocs: seq<nat>, breaks: seq<nat>,
                       increments: seq<nat>)
    requires Available(sym, ctx, slots)
    ensures Available(sym, ctx.(breaks := breaks, increments := increments), slots + Elements(allocs))
    ensures sym.Values <= slots + Elements(allocs)
  {
  }

  /** The main result: the code of a statement only names slots that were there
      before, or that it allocates. */
  lemma {:induction false} StatementCovers(s: Stmt, id: nat, bb: nat, sym: SymbolTable, ctx: Context, slots: set<nat>)
    requires StmtResolves(s, sym.Keys) && Available(sym, ctx, slots)
    ensures StmtCovers(LowerStmt(s, id, bb, sym, ctx), slots, sym.Keys + Introduced(s))
    decreases s
  {
    hide StmtCovers, Covers, Available, Lower, Resolves, IfCode, IfElseCode, WhileCode, ForCode, SwitchCode, ReturnCode,
      Elements, IdAfterBranch;
    AvailableLater(sym, ctx, slots, [], ctx.breaks, ctx.increments);
    assert sym.Values <= slots by { SymIn(sym, ctx, slots); }
    assert sym.Keys + {} == sym.Keys;
    match s
    case ExprStmt(e) =>
      ExprCovers(e, id, bb, sym, slots);
      ExprStmtCovers(Lower(e, id, bb, sym), sym, slots);
    case Decl(x, init) => DeclCovers(x, init, id, bb, sym, slots);
    case Compound(ss) => ListCovers(ss, id, bb, sym, ctx, slots);
    case If(c, thn) =>
      var fc := Lower(c, id, bb + 1, sym);
      var tid := IdAfterBranch(fc.val, fc.id);
      ExprCovers(c, id, bb + 1, sym, slots);
      AvailableLater(sym, ctx, slots, fc.allocs, ctx.breaks, ctx.increments);
      StatementCovers(thn, tid, fc.bb + 1, sym, ctx, slots + Elements(fc.allocs));
      IfCovers(bb, fc, fc.bb, LowerStmt(thn, tid, fc.bb + 1, sym, ctx), slots, sym.Keys + Introduced(thn));
    case IfElse(c, thn, els) => IfElseStmtCovers(s, id, bb, sym, ctx, slots);
    case While(c, loop, _) =>
      var fc := Lower(c, id, bb + 3, sym);
      var lid := IdAfterBranch(fc.val, fc.id);
      var inner := WithBreak(ctx, bb + 2);
      ExprCovers(c, id, bb + 3, sym, slots);
      AvailableLater(sym, ctx, slots, fc.allocs, inner.breaks, inner.increments);
      StatementCovers(loop, lid, fc.bb, sym, inner, slots + Elements(fc.allocs));
      WhileCovers(bb, fc, LowerStmt(loop, lid, fc.bb, sym, inner), slots, sym.Keys + Introduced(loop));
    case For(_, _, _, _) => ForStmtCovers(s, id, bb, sym, ctx, slots);
    case Switch(c, cases) =>
      var fc := Lower(c, id, bb + 2, sym);
      var inner := WithBreak(ctx, bb);
      var bid, bbb := fc.id + TestCount(cases), fc.bb + Bodies(cases);
      ExprCovers(c, id, bb + 2, sym, slots);
      AvailableLater(sym, ctx, slots, fc.allocs, inner.breaks, inner.increments);
      CasesCover(cases, fc.bb, bb + 1, bid, bbb, sym, inner, slots + Elements(fc.allocs));
      SwitchCovers(bb, fc, cases, LowerCases(cases, fc.bb, bb + 1, bid, bbb, sym, inner), slots,
        sym.Keys + CasesIntroduced(cases));
    case Break => NothingCovered([Jump(Last(ctx.breaks))], id, bb, sym, slots);
    case Continue => NothingCovered([Jump(Last(ctx.increments))], id, bb, sym, slots);
    case Return(ret) => ReturnStmtCovers(ret, id, bb, sym, ctx, slots);
  }

  lemma SymIn(sym: SymbolTable, ctx: Context, slots: set<nat>)
    requires Available(sym, ctx, slots)
    ensures sym.Values <= slots && (ctx.merge.Some? ==> ctx.merge.value in slots)
  {
  }

  lemma ReturnStmtCovers(ret: Option<Expr>, id: nat, bb: nat, sym: SymbolTable, ctx: Context, slots: set<nat>)
    requires (ret.Some? ==> Resolves(ret.value, sym.Keys)) && Available(sym, ctx, slots)
    ensures StmtCovers(LowerReturn(ret, id, bb, sym, ctx), slots, sym.Keys)
  {
    hide StmtCovers, Covers, Lower, Resolves, ReturnCode;
    if ret.Some? && !ctx.isVoid {
      ExprCovers(ret.value, id, bb, sym, slots);
      ReturnCovers(ctx, Lower(ret.value, id, bb, sym), sym, true, slots);
    } else {
      ConstCovers(0, id, bb, slots);
      ReturnCovers(ctx, Frag([], Const(0), id, bb, []), sym, false, slots);
    }
  }

  lemma IfElseStmtCovers(s: Stmt, id: nat, bb: nat, sym: SymbolTable, ctx: Context, slots: set<nat>)
    requires s.IfElse? && StmtResolves(s, sym.Keys) && Available(sym, ctx, slots)
    ensures StmtCovers(LowerIfElse(s, id, bb, sym, ctx), slots, sym.Keys + Introduced(s))
    decreases s, 0
  {
    hide StmtCovers, Covers, Available, Lower, LowerStmt, Resolves, IfElseCode, Elements, IdAfterBranch;
    var fc := Lower(s.c, id, bb + 2, sym);
    var tid := IdAfterBranch(fc.val, fc.id);
    var ft := LowerStmt(s.thn, tid, fc.bb + 1, sym, ctx);
    var known := sym.Keys + Introduced(s.thn);
    var after := slots + Elements(fc.allocs);
    SymIn(sym, ctx, slots);
    ExprCovers(s.c, id, bb + 2, sym, slots);
    AvailableLater(sym, ctx, slots, fc.allocs, ctx.breaks, ctx.increments);
    StatementCovers(s.thn, tid, fc.bb + 1, sym, ctx, after);
    AvailableAfter(ft, ctx, after, known);
    StatementCovers(s.els, ft.id, ft.bb, ft.sym, ctx, after + Elements(ft.allocs));
    assert known + Introduced(s.els) == sym.Keys + Introduced(s);
    IfElseCovers(bb, fc, fc.bb, ft, LowerStmt(s.els, ft.id, ft.bb, ft.sym, ctx), slots, known,
      sym.Keys + Introduced(s));
  }

  lemma ForStmtCovers(s: Stmt, id: nat, bb: nat, sym: SymbolTable, ctx: Context, slots: set<nat>)
    requires s.For? && StmtResolves(s, sym.Keys) && Available(sym, ctx, slots)
    ensures StmtCovers(LowerFor(s, id, bb, sym, ctx), slots, sym.Keys + Introduced(s))
    decreases s, 0
  {
    hide StmtCovers, Covers, Available, Lower, LowerStmt, Resolves, ForCode, Elements, IdAfterBranch;
    var f0 := LowerStmt(s.start, id, bb + 4, sym, ctx);
    var fc := Lower(s.c, f0.id, f0.bb, f0.sym);
    var lid := IdAfterBranch(fc.val, fc.id);
    var inner := WithLoop(ctx, bb + 3, bb + 2);
    var fs := LowerStmt(s.loop, lid, fc.bb, f0.sym, inner);
    var known0 := sym.Keys + Introduced(s.start);
    var known := known0 + Introduced(s.loop);
    var slots0 := slots + Elements(f0.allocs);
    var slots1 := slots0 + Elements(fc.allocs);
    SymIn(sym, ctx, slots);
    StatementCovers(s.start, id, bb + 4, sym, ctx, slots);
    AvailableAfter(f0, ctx, slots, known0);
    SymIn(f0.sym, ctx, slots0);
    ExprCovers(s.c, f0.id, f0.bb, f0.sym, slots0);
    AvailableLater(f0.sym, ctx, slots0, fc.allocs, inner.breaks, inner.increments);
    StatementCovers(s.loop, lid, fc.bb, f0.sym, inner, slots1);
    SymIn(f0.sym, inner, slots1);
    AvailableAfter(fs, inner, slots1, known);
    SymIn(fs.sym, inner, slots1 + Elements(fs.allocs));
    ExprCovers(s.step, fs.id, fs.bb, fs.sym, slots1 + Elements(fs.allocs));
    assert known == sym.Keys + Introduced(s);
    ForCovers(bb, f0, fc, fs, Lower(s.step, fs.id, fs.bb, fs.sym), slots, known0, known);
  }

  lemma SeqCovers(g: StmtFrag, h: StmtFrag, head: seq<Instr>, slots: set<nat>, known: set<string>, known': set<string>)
    requires StmtCovers(g, slots, known) && StmtCovers(h, slots + Elements(g.allocs), known')
    requires forall i :: i in head ==> i.Label?
    ensures StmtCovers(StmtFrag(head + g.code + h.code, h.id, h.bb, h.sym, g.allocs + h.allocs), slots, known')
    ensures StmtCovers(g.(code := head + g.code), slots, known)
  {
    var all := slots + Elements(g.allocs + h.allocs);
    ElementsAppend(g.allocs, h.allocs);
    StmtCoversLater(g, known, slots, all);
    StmtCoversLater(h, known', slots + Elements(g.allocs), all);
    NoneNamed(head, all);
    NoneNamed(head, slots + Elements(g.allocs));
    OnlyNamesAppend(head, g.code, all);
    OnlyNamesAppend(head, g.code, slots + Elements(g.allocs));
    OnlyNamesAppend(head + g.code, h.code, all);
    hide OnlyNames;
  }

  lemma {:induction false} ListCovers(ss: Stmts, id: nat, bb: nat, sym: SymbolTable, ctx: Context, slots: set<nat>)
    requires ListResolves(ss, sym.Keys) && Available(sym, ctx, slots)
    ensures StmtCovers(LowerList(ss, id, bb, sym, ctx), slots, sym.Keys + ListIntroduced(ss))
    decreases ss
  {
    hide StmtCovers, Available, LowerStmt, StmtResolves, Elements;
    SymIn(sym, ctx, slots);
    match ss
    case Nil =>
      NothingCovered([], id, bb, sym, slots);
      assert sym.Keys + {} == sym.Keys;
    case Cons(s, rest) =>
      var g := LowerStmt(s, id, bb, sym, ctx);
      var known := sym.Keys + Introduced(s);
      StatementCovers(s, id, bb, sym, ctx, slots);
      AvailableAfter(g, ctx, slots, known);
      ListCovers(rest, g.id, g.bb, g.sym, ctx, slots + Elements(g.allocs));
      assert known + ListIntroduced(rest) == sym.Keys + ListIntroduced(ss);
      var h := LowerList(rest, g.id, g.bb, g.sym, ctx);
      SeqCovers(g, h, [], slots, known, sym.Keys + ListIntroduced(ss));
      assert [] + g.code + h.code == g.code + h.code;
  }

  lemma {:induction false} CasesCover(cases: Cases, k: nat, default: nat, id: nat, bb: nat, sym: SymbolTable,
                                      ctx: Context, slots: set<nat>)
    requires CasesResolve(cases, sym.Keys) && Available(sym, ctx, slots)
    ensures StmtCovers(LowerCases(cases, k, default, id, bb, sym, ctx), slots, sym.Keys + CasesIntroduced(cases))
    decreases cases
  {
    hide StmtCovers, Available, LowerList, ListResolves, Elements;
    SymIn(sym, ctx, slots);
    var g := LowerList(cases.stmts, id, bb, sym, ctx);
    var known := sym.Keys + ListIntroduced(cases.stmts);
    ListCovers(cases.stmts, id, bb, sym, ctx, slots);
    match cases
    case Default(ss) => LabelCovers(default, g, slots, known);
    case Case(_, ss, rest) =>
      if ss.Nil? {
        assert known == sym.Keys && known + CasesIntroduced(rest) == sym.Keys + CasesIntroduced(cases);
        CasesCover(rest, k, default, id, bb, sym, ctx, slots);
      } else {
        AvailableAfter(g, ctx, slots, known);
        CasesCover(rest, k + 1, default, g.id, g.bb, g.sym, ctx, slots + Elements(g.allocs));
        assert known + CasesIntroduced(rest) == sym.Keys + CasesIntroduced(cases);
        SeqCovers(g, LowerCases(rest, k + 1, default, g.id, g.bb, g.sym, ctx), [Label(k)], slots, known,
          sym.Keys + CasesIntroduced(cases));
      }
  }

  lemma LabelCovers(bb: nat, g: StmtFrag, slots: set<nat>, known: set<string>)
    requires StmtCovers(g, slots, known)
    ensures StmtCovers(g.(code := [Label(bb)] + g.code), slots, known)
  {
    NoneNamed([Label(bb)], slots + Elements(g.allocs));
    OnlyNamesAppend([Label(bb)], g.code, slots + Elements(g.allocs));
  }

  // ---------------------------------------------------------------------
  // The state of the factory
  // ---------------------------------------------------------------------

  /** Everything emitted so far names allocated slots only, and so does whatever
      may be emitted later. */
  ghost predicate Reserved(st: State) {
    OnlyNames(st.listing, Elements(st.allocs)) && Available(st.sym, st.ctx, Elements(st.allocs))
  }

  lemma ExprReserves(e: Expr, st: State)
    ensures Reserved(st) && Resolves(e, st.sym.Keys) ==>
              var f := Lower(e, st.id, st.bb, st.sym);
              Reserved(After(st, f)) && OperandIn(f.val, Elements(After(st, f).allocs))
  {
    hide Lower, Resolves;
    if Reserved(st) && Resolves(e, st.sym.Keys) {
      var f := Lower(e, st.id, st.bb, st.sym);
      var slots, all := Elements(st.allocs), Elements(st.allocs + f.allocs);
      ElementsAppend(st.allocs, f.allocs);
      ExprCovers(e, st.id, st.bb, st.sym, slots);
      FragCoversLater(f, slots, all);
      OnlyNamesWider(st.listing, slots, all);
      OnlyNamesAppend(st.listing, f.code, all);
    }
  }

  lemma StatementReserves(s: Stmt, st: State)
    ensures Reserved(st) && StmtResolves(s, st.sym.Keys) ==>
              Reserved(AfterStmt(st, LowerStmt(s, st.id, st.bb, st.sym, st.ctx)))
  {
    hide LowerStmt, StmtResolves, Introduced;
    if Reserved(st) && StmtResolves(s, st.sym.Keys) {
      var f := LowerStmt(s, st.id, st.bb, st.sym, st.ctx);
      var slots, all := Elements(st.allocs), Elements(st.allocs + f.allocs);
      ElementsAppend(st.allocs, f.allocs);
      StatementCovers(s, st.id, st.bb, st.sym, st.ctx, slots);
      StmtCoversLater(f, st.sym.Keys + Introduced(s), slots, all);
      OnlyNamesWider(st.listing, slots, all);
      OnlyNamesAppend(st.listing, f.code, all);
    }
  }

  // ---------------------------------------------------------------------
  // Functions
  // ---------------------------------------------------------------------

  /** Every name in the function is a parameter or declared before its use. */
  predicate FunctionResolves(f: Function) {
    StmtResolves(f.body, ParamScope(f))
  }

  /** The allocations of a function in the order of the entry block: its
      parameters, the merged return value, and what its body declares and
      computes with. */
  function FunctionAllocs(f: Function): seq<nat> {
    LowerParams(f.params, 0, 0, map[]).allocs + (if Merges(f) then [MergeSlot(f)] else []) + LowerBody(f).allocs
  }

  lemma {:induction false} ParamsCover(params: seq<string>, k: nat, id: nat, sym: SymbolTable, slots: set<nat>)
    requires k <= |params| && sym.Values <= slots
    ensures StmtCovers(LowerParams(params, k, id, sym), slots, sym.Keys + set x | x in params[k..])
    decreases |params| - k
  {
    hide StmtCovers;
    if k == |params| {
      NothingCovered([], id, 1, sym, slots);
      assert sym.Keys + (set x | x in params[k..]) == sym.Keys;
    } else {
      var sym1 := sym[params[k] := id];
      var rest := LowerParams(params, k + 1, id + 2, sym1);
      var later := params[k + 1..];
      var known := sym1.Keys + set x | x in later;
      ParamsCover(params, k + 1, id + 2, sym1, slots + Elements([id]));
      ParamCovers(k, id, sym1, slots);
      SeqCovers(StmtFrag([Store(Param(k), id)], id, 1, sym1, [id]), rest, [], slots, sym1.Keys, known);
      assert [] + [Store(Param(k), id)] + rest.code == [Store(Param(k), id)] + rest.code;
      assert params[k..] == [params[k]] + later;
      assert known == sym.Keys + set x | x in params[k..];
    }
  }

  lemma ParamCovers(k: nat, id: nat, sym: SymbolTable, slots: set<nat>)
    requires forall v :: v in sym.Values ==> v in slots || v == id
    ensures StmtCovers(StmtFrag([Store(Param(k), id)], id, 1, sym, [id]), slots, sym.Keys)
  {
    StoreNames(Param(k), id, slots + Elements([id]));
  }

  lemma EpilogueNames(f: Function, slots: set<nat>)
    requires Merges(f) ==> MergeSlot(f) in slots
    ensures OnlyNames(Epilogue(f), slots)
  {
    hide LowerBody;
    if Merges(f) {
      var b := LowerBody(f);
      NoneNamed([Label(b.bb)], slots);
      LoadNames(b.id, MergeSlot(f), slots);
      OnlyNamesAppend([Label(b.bb)], [Load(b.id, MergeSlot(f))], slots);
      OnlyNamesAppend([Label(b.bb)] + [Load(b.id, MergeSlot(f))], [Ret(Some(Reg(b.id)))], slots);
    }
  }

  /** The main result for functions: every slot that the finished listing names
      is allocated. */
  lemma FunctionCovers(f: Function)
    requires FunctionResolves(f)
    ensures OnlyNames(LowerFunction(f), Elements(FunctionAllocs(f)))
  {
    hide OnlyNames, StmtCovers, StmtResolves, LowerStmt, Epilogue, Introduced;
    var p, b := LowerParams(f.params, 0, 0, map[]), LowerBody(f);
    var merged: seq<nat> := if Merges(f) then [MergeSlot(f)] else [];
    var slots, all := Elements(p.allocs + merged), Elements(FunctionAllocs(f));
    ElementsAppend(p.allocs, merged);
    ElementsAppend(p.allocs + merged, b.allocs);
    var none: SymbolTable := map[];
    ParamsCover(f.params, 0, 0, none, {});
    assert f.params[0..] == f.params;
    assert none.Keys + ParamScope(f) == ParamScope(f);
    StmtCoversLater(p, ParamScope(f), {}, slots);
    StatementCovers(f.body, if Merges(f) then p.id + 1 else p.id, 1, p.sym, BodyContext(f), slots);
    StmtCoversLater(b, ParamScope(f) + Introduced(f.body), slots, all);
    OnlyNamesWider(p.code, slots, all);
    NoneNamed([Label(0)], all);
    NoneNamed([], all);
    EpilogueNames(f, all);
    OnlyNamesAppend5([Label(0)], p.code, b.code, Epilogue(f), [], all);
    PatchNames(Unpatched(f), LowerBody(f).bb, all);
  }
}
