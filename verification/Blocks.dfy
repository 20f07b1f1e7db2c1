/** Every block that lowering allocates is inserted exactly once, and every
    jump and branch targets such a block or the top of a target stack. */
module Blocks {
  import opened Words
  import opened Source
  import opened IR
  import opened Lowering
  import opened StmtCorrectness

  function Once(b: bool): nat { if b then 1 else 0 }

  lemma CountAppend(a: seq<Instr>, b: seq<Instr>, bb: nat)
    ensures Count(a + b, bb) == Count(a, bb) + Count(b, bb)
  {
  }

  lemma CountAppend4(a: seq<Instr>, b: seq<Instr>, c: seq<Instr>, d: seq<Instr>, bb: nat)
    ensures Count(a + b + c + d, bb) == Count(a, bb) + Count(b, bb) + Count(c, bb) + Count(d, bb)
  {
    hide Count;
    CountAppend(a, b, bb);
    CountAppend(a + b, c, bb);
    CountAppend(a + b + c, d, bb);
  }

  lemma CountAppend5(a: seq<Instr>, b: seq<Instr>, c: seq<Instr>, d: seq<Instr>, e: seq<Instr>, bb: nat)
    ensures Count(a + b + c + d + e, bb) == Count(a, bb) + Count(b, bb) + Count(c, bb) + Count(d, bb) + Count(e, bb)
  {
    hide Count;
    CountAppend4(a, b, c, d, bb);
    CountAppend(a + b + c + d, e, bb);
  }

  lemma CountAppend7(a: seq<Instr>, b: seq<Instr>, c: seq<Instr>, d: seq<Instr>, e: seq<Instr>, f: seq<Instr>,
                     g: seq<Instr>, bb: nat)
    ensures Count(a + b + c + d + e + f + g, bb)
            == Count(a, bb) + Count(b, bb) + Count(c, bb) + Count(d, bb) + Count(e, bb) + Count(f, bb) + Count(g, bb)
  {
    hide Count;
    CountAppend4(a, b, c, d, bb);
    CountAppend4(a + b + c + d, e, f, g, bb);
  }

  lemma {:induction false} CountSame(a: seq<Instr>, b: seq<Instr>, bb: nat)
    requires |a| == |b| && forall i :: 0 <= i < |a| ==> (a[i] == Label(bb) <==> b[i] == Label(bb))
    ensures Count(a, bb) == Count(b, bb)
  {
    if a != [] {
      var n := |a| - 1;
      assert a == a[..n] + [a[n]] && b == b[..n] + [b[n]];
      CountSame(a[..n], b[..n], bb);
    }
  }

  lemma CountTested(f: Frag, id: nat, target: nat, bb: nat)
    ensures Count(Tested(f), bb) == Count(f.code, bb)
    ensures Count(BranchIfZero(f.val, id, target), bb) == 0
  {
    CountSame(Tested(f), f.code, bb);
  }

  /** The fragment f, lowered from block lo on, has the block bb as it should. */
  predicate HasOnce(code: seq<Instr>, lo: nat, hi: nat, bb: nat) {
    Count(code, bb) == Once(lo <= bb < hi)
  }

  lemma SimpleOnce(id: nat, lo: nat, slot: nat, increment: bool, bb: nat)
    ensures HasOnce([], lo, lo, bb)
    ensures HasOnce(VarCode(id, lo, slot).code, lo, lo, bb)
    ensures HasOnce(PostCode(id, lo, slot, increment).code, lo, lo, bb)
  {
  }

  lemma ExtendOnce(f: Frag, op: BinOp, slot: nat, lo: nat, bb: nat)
    requires HasOnce(f.code, lo, f.bb, bb)
    ensures HasOnce(MinusCode(f).code, lo, f.bb, bb)
    ensures HasOnce(AssignCode(f, slot).code, lo, f.bb, bb)
    ensures HasOnce(OpAssignCode(op, f, slot).code, lo, f.bb, bb)
  {
  }

  lemma PairOnce(l: Frag, r: Frag, op: BinOp, rel: CompRel, commutative: bool, lo: nat, bb: nat)
    requires HasOnce(l.code, lo, l.bb, bb) && HasOnce(r.code, l.bb, r.bb, bb) && lo <= l.bb <= r.bb
    ensures var o := MakeOperands(l, r, commutative);
            HasOnce(BinaryCode(op, o).code, lo, r.bb, bb) && HasOnce(CompareCode(rel, o).code, lo, r.bb, bb)
  {
  }

  lemma CountNone(o: Operand, slot: nat, bb: nat)
    ensures Count([Store(o, slot)], bb) == 0
  {
  }

  lemma CountOne(l: nat, bb: nat)
    ensures Count([Label(l)], bb) == Once(bb == l)
  {
  }

  lemma NotTail(slot: nat, yes: nat, end: nat, id: nat, bb: nat)
    ensures Count([Label(yes), Store(Const(0), slot), Jump(end), Label(end), Load(id, slot)], bb)
            == Once(bb == yes) + Once(bb == end)
  {
  }

  lemma NotParts(f: Frag)
    ensures var slot, yes, end := f.id, f.bb, f.bb + 1;
            NotCode(f).code
            == Tested(f) + [Store(Const(1), slot)] + BranchIfZero(f.val, slot + 1, end)
               + [Label(yes), Store(Const(0), slot), Jump(end), Label(end), Load(IdAfterBranch(f.val, slot + 1), slot)]
  {
  }

  lemma NotOnce(f: Frag, lo: nat, bb: nat)
    requires HasOnce(f.code, lo, f.bb, bb) && lo <= f.bb
    ensures HasOnce(NotCode(f).code, lo, f.bb + 2, bb)
  {
    hide Tested, BranchIfZero, Count, NotCode;
    var slot, yes, end := f.id, f.bb, f.bb + 1;
    NotParts(f);
    CountNone(Const(1), slot, bb);
    NotTail(slot, yes, end, IdAfterBranch(f.val, slot + 1), bb);
    CountTested(f, slot + 1, end, bb);
    CountAppend4(Tested(f), [Store(Const(1), slot)], BranchIfZero(f.val, slot + 1, end),
                 [Label(yes), Store(Const(0), slot), Jump(end), Label(end),
                   Load(IdAfterBranch(f.val, slot + 1), slot)], bb);
  }

  lemma LogicalAndParts(slot: nat, lo: nat, l: Frag, r: Frag)
    ensures var rhs, yes, no, end := lo, lo + 1, lo + 2, lo + 3;
            LogicalAndCode(slot, lo, l, r).code
            == [Store(Const(0), slot)] + Tested(l) + BranchIfZero(l.val, l.id, no) + [Label(rhs)]
               + Tested(r) + BranchIfZero(r.val, r.id, no)
               + [Label(yes), Store(Const(1), slot), Jump(end),
                  Label(no), Store(Const(0), slot), Jump(end),
                  Label(end), Load(IdAfterBranch(r.val, r.id), slot)]
  {
  }

  lemma LogicalAndOnce(slot: nat, lo: nat, l: Frag, r: Frag, bb: nat)
    requires lo + 4 <= l.bb <= r.bb && HasOnce(l.code, lo + 4, l.bb, bb) && HasOnce(r.code, l.bb, r.bb, bb)
    ensures HasOnce(LogicalAndCode(slot, lo, l, r).code, lo, r.bb, bb)
  {
    hide Tested, BranchIfZero, Count, LogicalAndCode;
    var rhs, yes, no, end := lo, lo + 1, lo + 2, lo + 3;
    LogicalAndParts(slot, lo, l, r);
    CountNone(Const(0), slot, bb);
    CountOne(rhs, bb);
    LogicalAndTail(slot, yes, no, end, IdAfterBranch(r.val, r.id), bb);
    CountTested(l, l.id, no, bb);
    CountTested(r, r.id, no, bb);
    CountAppend7([Store(Const(0), slot)], Tested(l), BranchIfZero(l.val, l.id, no), [Label(rhs)],
                 Tested(r), BranchIfZero(r.val, r.id, no),
                 [Label(yes), Store(Const(1), slot), Jump(end),
                  Label(no), Store(Const(0), slot), Jump(end),
                  Label(end), Load(IdAfterBranch(r.val, r.id), slot)], bb);
  }

  lemma LogicalAndTail(slot: nat, yes: nat, no: nat, end: nat, id: nat, bb: nat)
    ensures Count([Label(yes), Store(Const(1), slot), Jump(end),
                   Label(no), Store(Const(0), slot), Jump(end),
                   Label(end), Load(id, slot)], bb) == Once(bb == yes) + Once(bb == no) + Once(bb == end)
  {
  }

  lemma TernaryTail(o: Operand, slot: nat, end: nat, l: nat, bb: nat)
    ensures Count([Store(o, slot), Jump(end), Label(l)], bb) == Once(bb == l)
  {
  }

  lemma TernaryParts(lo: nat, c: Frag, t: Frag, f: Frag)
    ensures var yes, no, end, slot := lo, lo + 1, lo + 2, t.id;
            TernaryCode(lo, c, t, f).code
            == Tested(c) + BranchIfZero(c.val, c.id, no) + [Label(yes)] + t.code
               + [Store(t.val, slot), Jump(end), Label(no)]
               + f.code + [Store(f.val, slot), Jump(end), Label(end)]
  {
  }

  lemma TernaryOnce(lo: nat, c: Frag, t: Frag, f: Frag, bb: nat)
    requires lo + 3 <= c.bb <= t.bb <= f.bb
    requires HasOnce(c.code, lo + 3, c.bb, bb) && HasOnce(t.code, c.bb, t.bb, bb) && HasOnce(f.code, t.bb, f.bb, bb)
    ensures HasOnce(TernaryCode(lo, c, t, f).code, lo, f.bb, bb)
  {
    hide Tested, BranchIfZero, Count, TernaryCode;
    var yes, no, end, slot := lo, lo + 1, lo + 2, t.id;
    TernaryParts(lo, c, t, f);
    CountOne(yes, bb);
    TernaryTail(t.val, slot, end, no, bb);
    TernaryTail(f.val, slot, end, end, bb);
    CountTested(c, c.id, no, bb);
    CountAppend7(Tested(c), BranchIfZero(c.val, c.id, no), [Label(yes)], t.code,
      [Store(t.val, slot), Jump(end), Label(no)],
                 f.code, [Store(f.val, slot), Jump(end), Label(end)], bb);
  }

  lemma {:induction false} ExprBlocks(e: Expr, id: nat, lo: nat, sym: SymbolTable, bb: nat)
    ensures HasOnce(Lower(e, id, lo, sym).code, lo, Lower(e, id, lo, sym).bb, bb)
  {
    hide HasOnce, VarCode, PostCode, MinusCode, AssignCode, OpAssignCode, Fresh, ReturnsCompare;
    hide NotCode, LogicalAndCode, TernaryCode, BinaryCode, CompareCode, MakeOperands;
    match e
    case Literal(_) => SimpleOnce(id, lo, 0, true, bb);
    case Var(x) => SimpleOnce(id, lo, SlotOf(sym, x), true, bb);
    case Post(x, increment) => SimpleOnce(id, lo, SlotOf(sym, x), increment, bb);
    case Not(e) =>
      ExprBlocks(e, id, lo, sym, bb);
      NotOnce(Lower(e, id, lo, sym), lo, bb);
    case Minus(e) =>
      SimpleOnce(id, lo, 0, true, bb);
      ExprBlocks(e, id, lo, sym, bb);
      ExtendOnce(Lower(e, id, lo, sym), ADD, 0, lo, bb);
    case Assign(x, e) =>
      ExprBlocks(e, id, lo, sym, bb);
      ExtendOnce(Lower(e, id, lo, sym), ADD, SlotOf(sym, x), lo, bb);
    case OpAssign(op, x, e) =>
      ExprBlocks(e, id, lo, sym, bb);
      ExtendOnce(Lower(e, id, lo, sym), op, SlotOf(sym, x), lo, bb);
    case Binary(op, l, r) =>
      var fl := Lower(l, id, lo, sym);
      ExprBlocks(l, id, lo, sym, bb);
      ExprBlocks(r, fl.id, fl.bb, sym, bb);
      PairOnce(fl, Lower(r, fl.id, fl.bb, sym), op, EQ, CommutativeOp(op), lo, bb);
    case Compare(rel, l, r) =>
      var fl := Lower(l, id, lo, sym);
      ExprBlocks(l, id, lo, sym, bb);
      ExprBlocks(r, fl.id, fl.bb, sym, bb);
      PairOnce(fl, Lower(r, fl.id, fl.bb, sym), ADD, rel, CommutativeRel(rel), lo, bb);
    case LogicalAnd(l, r) =>
      var fl := Lower(l, id + 1, lo + 4, sym);
      ExprBlocks(l, id + 1, lo + 4, sym, bb);
      ExprBlocks(r, IdAfterBranch(fl.val, fl.id), fl.bb, sym, bb);
      LogicalAndOnce(id, lo, fl, Lower(r, IdAfterBranch(fl.val, fl.id), fl.bb, sym), bb);
    case Ternary(c, t, f) =>
      var fc := Lower(c, id, lo + 3, sym);
      var ft := Lower(t, IdAfterBranch(fc.val, fc.id), fc.bb, sym);
      ExprBlocks(c, id, lo + 3, sym, bb);
      ExprBlocks(t, IdAfterBranch(fc.val, fc.id), fc.bb, sym, bb);
      ExprBlocks(f, ft.id + 1, ft.bb, sym, bb);
      TernaryOnce(lo, fc, ft, Lower(f, ft.id + 1, ft.bb, sym), bb);
  }

  // ---------------------------------------------------------------------
  // Statements
  // ---------------------------------------------------------------------

  lemma CountTest(c: Frag, target: nat, bb: nat)
    ensures Count(Tested(c) + BranchIfZero(c.val, c.id, target), bb) == Count(c.code, bb)
  {
    CountTested(c, c.id, target, bb);
    CountAppend(Tested(c), BranchIfZero(c.val, c.id, target), bb);
  }

  lemma CountHop(j: nat, l: nat, bb: nat)
    ensures Count([Jump(j), Label(l)], bb) == Once(bb == l)
  {
  }

  lemma IfParts(end: nat, c: Frag, yes: nat, t: StmtFrag)
    ensures IfCode(end, c, yes, t).code
            == (Tested(c) + BranchIfZero(c.val, c.id, end)) + [Label(yes)] + t.code + [Jump(end), Label(end)]
  {
  }

  lemma IfOnce(lo: nat, c: Frag, t: StmtFrag, bb: nat)
    requires lo + 1 <= c.bb && c.bb + 1 <= t.bb
    requires HasOnce(c.code, lo + 1, c.bb, bb) && HasOnce(t.code, c.bb + 1, t.bb, bb)
    ensures HasOnce(IfCode(lo, c, c.bb, t).code, lo, t.bb, bb)
  {
    hide Tested, BranchIfZero, Count, IfCode;
    IfParts(lo, c, c.bb, t);
    CountTest(c, lo, bb);
    CountOne(c.bb, bb);
    CountHop(lo, lo, bb);
    CountAppend4(Tested(c) + BranchIfZero(c.val, c.id, lo), [Label(c.bb)], t.code, [Jump(lo), Label(lo)], bb);
  }

  lemma IfElseParts(bb: nat, c: Frag, yes: nat, t: StmtFrag, e: StmtFrag)
    ensures IfElseCode(bb, c, yes, t, e).code
            == (Tested(c) + BranchIfZero(c.val, c.id, bb)) + [Label(yes)] + t.code + [Jump(bb + 1), Label(bb)]
               + (e.code + [Jump(bb + 1), Label(bb + 1)])
  {
  }

  lemma IfElseOnce(lo: nat, c: Frag, t: StmtFrag, e: StmtFrag, bb: nat)
    requires lo + 2 <= c.bb && c.bb + 1 <= t.bb <= e.bb
    requires HasOnce(c.code, lo + 2, c.bb, bb) && HasOnce(t.code, c.bb + 1, t.bb, bb) && HasOnce(e.code, t.bb, e.bb, bb)
    ensures HasOnce(IfElseCode(lo, c, c.bb, t, e).code, lo, e.bb, bb)
  {
    hide Tested, BranchIfZero, Count, IfElseCode;
    IfElseParts(lo, c, c.bb, t, e);
    CountTest(c, lo, bb);
    CountOne(c.bb, bb);
    CountHop(lo + 1, lo, bb);
    CountHop(lo + 1, lo + 1, bb);
    CountAppend(e.code, [Jump(lo + 1), Label(lo + 1)], bb);
    CountAppend5(Tested(c) + BranchIfZero(c.val, c.id, lo), [Label(c.bb)], t.code, [Jump(lo + 1), Label(lo)],
                 e.code + [Jump(lo + 1), Label(lo + 1)], bb);
  }

  lemma WhileParts(lo: nat, c: Frag, s: StmtFrag)
    ensures WhileCode(lo, c, s).code
            == [Jump(lo), Label(lo)] + (Tested(c) + BranchIfZero(c.val, c.id, lo + 2)) + [Label(lo + 1)] + s.code
               + [Jump(lo), Label(lo + 2)]
  {
  }

  lemma WhileOnce(lo: nat, c: Frag, s: StmtFrag, bb: nat)
    requires lo + 3 <= c.bb <= s.bb && HasOnce(c.code, lo + 3, c.bb, bb) && HasOnce(s.code, c.bb, s.bb, bb)
    ensures HasOnce(WhileCode(lo, c, s).code, lo, s.bb, bb)
  {
    hide Tested, BranchIfZero, Count, WhileCode;
    var test := Tested(c) + BranchIfZero(c.val, c.id, lo + 2);
    WhileParts(lo, c, s);
    CountTest(c, lo + 2, bb);
    CountOne(lo + 1, bb);
    CountHop(lo, lo, bb);
    CountHop(lo, lo + 2, bb);
    CountAppend5([Jump(lo), Label(lo)], test, [Label(lo + 1)], s.code, [Jump(lo), Label(lo + 2)], bb);
  }

  lemma ForParts(lo: nat, start: StmtFrag, c: Frag, s: StmtFrag, step: Frag)
    ensures ForCode(lo, start, c, s, step).code
            == start.code + [Jump(lo), Label(lo)]
               + (Tested(c) + BranchIfZero(c.val, c.id, lo + 3)) + [Label(lo + 1)] + s.code
               + [Jump(lo + 2), Label(lo + 2)] + (step.code + [Jump(lo), Label(lo + 3)])
  {
  }

  lemma ForOnce(lo: nat, start: StmtFrag, c: Frag, s: StmtFrag, step: Frag, bb: nat)
    requires lo + 4 <= start.bb <= c.bb <= s.bb <= step.bb
    requires HasOnce(start.code, lo + 4, start.bb, bb) && HasOnce(c.code, start.bb, c.bb, bb)
    requires HasOnce(s.code, c.bb, s.bb, bb) && HasOnce(step.code, s.bb, step.bb, bb)
    ensures HasOnce(ForCode(lo, start, c, s, step).code, lo, step.bb, bb)
  {
    hide Tested, BranchIfZero, Count, ForCode;
    ForParts(lo, start, c, s, step);
    CountTest(c, lo + 3, bb);
    CountOne(lo + 1, bb);
    CountHop(lo, lo, bb);
    CountHop(lo + 2, lo + 2, bb);
    CountHop(lo, lo + 3, bb);
    CountAppend(step.code, [Jump(lo), Label(lo + 3)], bb);
    CountAppend7(start.code, [Jump(lo), Label(lo)], Tested(c) + BranchIfZero(c.val, c.id, lo + 3), [Label(lo + 1)],
      s.code,
                 [Jump(lo + 2), Label(lo + 2)], step.code + [Jump(lo), Label(lo + 3)], bb);
  }

  lemma {:induction false} CountTests(cases: Cases, val: Operand, id: nat, k: nat, bb: nat)
    ensures Count(CaseTests(cases, val, id, k), bb) == 0
  {
    match cases
    case Default(_) =>
    case Case(n, ss, rest) =>
      var k' := if ss.Nil? then k else k + 1;
      CountTests(rest, val, id + 1, k', bb);
      CountAppend([Cmp(id, EQ, val, Const(n)), Branch(CmpResult(id), k)], CaseTests(rest, val, id + 1, k'), bb);
  }

  /** The bodies bring their own blocks: those of the cases from k on, the
      default, and the blocks inside. */
  function BodyBlocks(cases: Cases, k: nat, default: nat, lo: nat, hi: nat, bb: nat): nat {
    Once(k <= bb < k + Bodies(cases)) + Once(bb == default) + Once(lo <= bb < hi)
  }

  lemma SwitchParts(lo: nat, c: Frag, cases: Cases, bodies: StmtFrag, bb: nat)
    ensures SwitchCode(lo, c, cases, bodies).code
            == c.code + CaseTests(cases, c.val, c.id, c.bb) + [Jump(lo + 1)] + bodies.code + [Label(lo)]
    ensures Count([Jump(lo + 1)], bb) == 0
  {
  }

  lemma SwitchOnce(lo: nat, c: Frag, cases: Cases, bodies: StmtFrag, bb: nat)
    requires lo + 2 <= c.bb && c.bb + Bodies(cases) <= bodies.bb && HasOnce(c.code, lo + 2, c.bb, bb)
    requires Count(bodies.code, bb) == BodyBlocks(cases, c.bb, lo + 1, c.bb + Bodies(cases), bodies.bb, bb)
    ensures HasOnce(SwitchCode(lo, c, cases, bodies).code, lo, bodies.bb, bb)
  {
    hide Count, SwitchCode, CaseTests, Bodies;
    var tests := CaseTests(cases, c.val, c.id, c.bb);
    SwitchParts(lo, c, cases, bodies, bb);
    CountTests(cases, c.val, c.id, c.bb, bb);
    CountOne(lo, bb);
    CountAppend5(c.code, tests, [Jump(lo + 1)], bodies.code, [Label(lo)], bb);
  }

  lemma ReturnOnce(ctx: Context, f: Frag, sym: SymbolTable, hasValue: bool, bb: nat)
    ensures Count(ReturnCode(ctx, f, sym, hasValue).code, bb) == Count(f.code, bb)
  {
  }

  /** Each block allocated while a statement was lowered is in its code once,
      and no other block is. */
  lemma {:induction false} StmtBlocks(s: Stmt, id: nat, lo: nat, sym: SymbolTable, ctx: Context, bb: nat)
    ensures var f := LowerStmt(s, id, lo, sym, ctx); HasOnce(f.code, lo, f.bb, bb)
    decreases s, 1
  {
    hide HasOnce, Lower, LowerList, LowerDecl, LowerIf, LowerIfElse, LowerWhile, LowerFor, LowerSwitch, LowerReturn;
    match s
    case ExprStmt(e) => ExprBlocks(e, id, lo, sym, bb);
    case Decl(x, init) => DeclBlocks(x, init, id, lo, sym, bb);
    case Compound(ss) => ListBlocks(ss, id, lo, sym, ctx, bb);
    case If(_, _) => IfBlocks(s, id, lo, sym, ctx, bb);
    case IfElse(_, _, _) => IfElseBlocks(s, id, lo, sym, ctx, bb);
    case While(_, _, _) => WhileBlocks(s, id, lo, sym, ctx, bb);
    case For(_, _, _, _) => ForBlocks(s, id, lo, sym, ctx, bb);
    case Switch(_, _) => SwitchBlocks(s, id, lo, sym, ctx, bb);
    case Break => JumpOnce(Last(ctx.breaks), lo, bb);
    case Continue => JumpOnce(Last(ctx.increments), lo, bb);
    case Return(ret) => ReturnBlocks(ret, id, lo, sym, ctx, bb);
  }

  lemma DeclBlocks(x: string, init: Option<Expr>, id: nat, lo: nat, sym: SymbolTable, bb: nat)
    ensures var f := LowerDecl(x, init, id, lo, sym); HasOnce(f.code, lo, f.bb, bb)
  {
    hide HasOnce, Lower;
    SimpleOnce(id, lo, 0, true, bb);
    if init.Some? {
      ExprBlocks(init.value, id + 1, lo, sym, bb);
      ExtendOnce(Lower(init.value, id + 1, lo, sym), ADD, id, lo, bb);
    }
  }

  lemma IfBlocks(s: Stmt, id: nat, lo: nat, sym: SymbolTable, ctx: Context, bb: nat)
    requires s.If?
    ensures var f := LowerIf(s, id, lo, sym, ctx); HasOnce(f.code, lo, f.bb, bb)
    decreases s, 0
  {
    hide HasOnce, IfCode, Lower;
    var fc := Lower(s.c, id, lo + 1, sym);
    ExprBlocks(s.c, id, lo + 1, sym, bb);
    StmtBlocks(s.thn, IdAfterBranch(fc.val, fc.id), fc.bb + 1, sym, ctx, bb);
    IfOnce(lo, fc, LowerStmt(s.thn, IdAfterBranch(fc.val, fc.id), fc.bb + 1, sym, ctx), bb);
  }

  lemma IfElseBlocks(s: Stmt, id: nat, lo: nat, sym: SymbolTable, ctx: Context, bb: nat)
    requires s.IfElse?
    ensures var f := LowerIfElse(s, id, lo, sym, ctx); HasOnce(f.code, lo, f.bb, bb)
    decreases s, 0
  {
    hide HasOnce, IfElseCode, Lower;
    var fc := Lower(s.c, id, lo + 2, sym);
    var ft := LowerStmt(s.thn, IdAfterBranch(fc.val, fc.id), fc.bb + 1, sym, ctx);
    ExprBlocks(s.c, id, lo + 2, sym, bb);
    StmtBlocks(s.thn, IdAfterBranch(fc.val, fc.id), fc.bb + 1, sym, ctx, bb);
    StmtBlocks(s.els, ft.id, ft.bb, ft.sym, ctx, bb);
    IfElseOnce(lo, fc, ft, LowerStmt(s.els, ft.id, ft.bb, ft.sym, ctx), bb);
  }

  lemma WhileBlocks(s: Stmt, id: nat, lo: nat, sym: SymbolTable, ctx: Context, bb: nat)
    requires s.While?
    ensures var f := LowerWhile(s, id, lo, sym, ctx); HasOnce(f.code, lo, f.bb, bb)
    decreases s, 0
  {
    hide HasOnce, WhileCode, Lower;
    var fc := Lower(s.c, id, lo + 3, sym);
    ExprBlocks(s.c, id, lo + 3, sym, bb);
    StmtBlocks(s.loop, IdAfterBranch(fc.val, fc.id), fc.bb, sym, WithBreak(ctx, lo + 2), bb);
    WhileOnce(lo, fc, LowerStmt(s.loop, IdAfterBranch(fc.val, fc.id), fc.bb, sym, WithBreak(ctx, lo + 2)), bb);
  }

  lemma ForBlocks(s: Stmt, id: nat, lo: nat, sym: SymbolTable, ctx: Context, bb: nat)
    requires s.For?
    ensures var f := LowerFor(s, id, lo, sym, ctx); HasOnce(f.code, lo, f.bb, bb)
    decreases s, 0
  {
    hide HasOnce, ForCode, Lower;
    var f0 := LowerStmt(s.start, id, lo + 4, sym, ctx);
    var fc := Lower(s.c, f0.id, f0.bb, f0.sym);
    var inner := WithLoop(ctx, lo + 3, lo + 2);
    var fs := LowerStmt(s.loop, IdAfterBranch(fc.val, fc.id), fc.bb, f0.sym, inner);
    StmtBlocks(s.start, id, lo + 4, sym, ctx, bb);
    ExprBlocks(s.c, f0.id, f0.bb, f0.sym, bb);
    StmtBlocks(s.loop, IdAfterBranch(fc.val, fc.id), fc.bb, f0.sym, inner, bb);
    ExprBlocks(s.step, fs.id, fs.bb, fs.sym, bb);
    ForOnce(lo, f0, fc, fs, Lower(s.step, fs.id, fs.bb, fs.sym), bb);
  }

  lemma SwitchBlocks(s: Stmt, id: nat, lo: nat, sym: SymbolTable, ctx: Context, bb: nat)
    requires s.Switch?
    ensures var f := LowerSwitch(s, id, lo, sym, ctx); HasOnce(f.code, lo, f.bb, bb)
    decreases s, 0
  {
    hide HasOnce, SwitchCode, Lower, LowerCases;
    var fc := Lower(s.c, id, lo + 2, sym);
    var inner := WithBreak(ctx, lo);
    var bid, bbb := fc.id + TestCount(s.cases), fc.bb + Bodies(s.cases);
    ExprBlocks(s.c, id, lo + 2, sym, bb);
    CasesBlocks(s.cases, fc.bb, lo + 1, bid, bbb, sym, inner, bb);
    SwitchOnce(lo, fc, s.cases, LowerCases(s.cases, fc.bb, lo + 1, bid, bbb, sym, inner), bb);
  }

  lemma JumpOnce(target: nat, lo: nat, bb: nat)
    ensures HasOnce([Jump(target)], lo, lo, bb)
  {
  }

  lemma ReturnBlocks(ret: Option<Expr>, id: nat, lo: nat, sym: SymbolTable, ctx: Context, bb: nat)
    ensures var f := LowerStmt(Return(ret), id, lo, sym, ctx); HasOnce(f.code, lo, f.bb, bb)
  {
    hide Lower, ReturnCode;
    if ret.Some? && !ctx.isVoid {
      ExprBlocks(ret.value, id, lo, sym, bb);
      ReturnOnce(ctx, Lower(ret.value, id, lo, sym), sym, true, bb);
    } else {
      ReturnOnce(ctx, Frag([], Const(0), id, lo, []), sym, false, bb);
    }
  }

  lemma {:induction false} ListBlocks(ss: Stmts, id: nat, lo: nat, sym: SymbolTable, ctx: Context, bb: nat)
    ensures var f := LowerList(ss, id, lo, sym, ctx); HasOnce(f.code, lo, f.bb, bb)
    decreases ss
  {
    hide LowerStmt;
    match ss
    case Nil =>
    case Cons(s, rest) =>
      var g := LowerStmt(s, id, lo, sym, ctx);
      var h := LowerList(rest, g.id, g.bb, g.sym, ctx);
      StmtBlocks(s, id, lo, sym, ctx, bb);
      ListBlocks(rest, g.id, g.bb, g.sym, ctx, bb);
      CountAppend(g.code, h.code, bb);
  }

  lemma {:induction false} CasesBlocks(cases: Cases, k: nat, default: nat, id: nat, lo: nat, sym: SymbolTable,
                                       ctx: Context, bb: nat)
    ensures var f := LowerCases(cases, k, default, id, lo, sym, ctx);
            Count(f.code, bb) == BodyBlocks(cases, k, default, lo, f.bb, bb)
    decreases cases
  {
    hide LowerList, Count;
    match cases
    case Default(ss) =>
      ListBlocks(ss, id, lo, sym, ctx, bb);
      CountAppend([Label(default)], LowerList(ss, id, lo, sym, ctx).code, bb);
      CountOne(default, bb);
    case Case(_, ss, rest) =>
      if ss.Nil? {
        CasesBlocks(rest, k, default, id, lo, sym, ctx, bb);
      } else {
        var g := LowerList(ss, id, lo, sym, ctx);
        var h := LowerCases(rest, k + 1, default, g.id, g.bb, g.sym, ctx);
        ListBlocks(ss, id, lo, sym, ctx, bb);
        CasesBlocks(rest, k + 1, default, g.id, g.bb, g.sym, ctx, bb);
        CountOne(k, bb);
        CountAppend([Label(k)], g.code, bb);
        CountAppend([Label(k)] + g.code, h.code, bb);
      }
  }
}
