/** The number of returns the parser counts is the number of exits in the code,
    so whether returns are merged, and whether a void function gets a return at
    its end, depends on what the function contains. */
module ReturnCount {
  import opened Words
  import opened Source
  import opened IR
  import opened Lowering
  import opened Blocks
  import opened Functions

  /** A return, or a jump to the block that returns. */
  predicate IsExit(i: Instr) { i.Ret? || i.JumpToReturn? }

  function ExitsIn(code: seq<Instr>): nat {
    if code == [] then 0 else (if IsExit(code[0]) then 1 else 0) + ExitsIn(code[1..])
  }

  lemma {:induction false} ExitsAppend(a: seq<Instr>, b: seq<Instr>)
    ensures ExitsIn(a + b) == ExitsIn(a) + ExitsIn(b)
  {
    if a == [] {
      assert a + b == b;
    } else {
      assert (a + b)[1..] == a[1..] + b;
      ExitsAppend(a[1..], b);
    }
  }

  ghost predicate NoExits(code: seq<Instr>) {
    forall i :: i in code ==> !IsExit(i)
  }

  lemma {:induction false} NoExitsIn(code: seq<Instr>)
    requires NoExits(code)
    ensures ExitsIn(code) == 0
  {
    if code != [] { NoExitsIn(code[1..]); }
  }

  lemma TestedNoExits(f: Frag)
    requires NoExits(f.code)
    ensures NoExits(Tested(f))
  {
    forall i | i in Tested(f)
      ensures !IsExit(i)
    {
      var k :| 0 <= k < |f.code| && Tested(f)[k] == i;
      assert f.code[k] in f.code;
    }
  }

  lemma BranchNoExits(val: Operand, id: nat, target: nat)
    ensures NoExits(BranchIfZero(val, id, target))
  {
  }

  lemma TernaryNoExits(bb: nat, c: Frag, t: Frag, f: Frag)
    requires NoExits(c.code) && NoExits(t.code) && NoExits(f.code)
    ensures NoExits(TernaryCode(bb, c, t, f).code)
  {
    TestedNoExits(c);
    BranchNoExits(c.val, c.id, bb + 1);
    hide Tested, BranchIfZero;
  }

  lemma NotNoExits(f: Frag)
    requires NoExits(f.code)
    ensures NoExits(NotCode(f).code)
  {
    TestedNoExits(f);
    BranchNoExits(f.val, f.id + 1, f.bb + 1);
    hide Tested, BranchIfZero;
  }

  lemma AndNoExits(slot: nat, bb: nat, l: Frag, r: Frag)
    requires NoExits(l.code) && NoExits(r.code)
    ensures NoExits(LogicalAndCode(slot, bb, l, r).code)
  {
    TestedNoExits(l);
    TestedNoExits(r);
    BranchNoExits(l.val, l.id, bb + 2);
    BranchNoExits(r.val, r.id, bb + 2);
    hide Tested, BranchIfZero;
  }

  lemma PairNoExits(l: Frag, r: Frag, op: BinOp, rel: CompRel, commutative: bool)
    requires NoExits(l.code) && NoExits(r.code)
    ensures var o := MakeOperands(l, r, commutative);
            NoExits(BinaryCode(op, o).code) && NoExits(CompareCode(rel, o).code)
  {
  }

  lemma SimpleNoExits(f: Frag, op: BinOp, id: nat, bb: nat, slot: nat, increment: bool)
    ensures NoExits([]) && NoExits(VarCode(id, bb, slot).code) && NoExits(PostCode(id, bb, slot, increment).code)
    ensures NoExits(f.code) ==>
              NoExits(MinusCode(f).code) && NoExits(AssignCode(f, slot).code) && NoExits(OpAssignCode(op, f, slot).code)
  {
  }

  lemma {:induction false} ExprNoExits(e: Expr, id: nat, bb: nat, sym: SymbolTable)
    ensures NoExits(Lower(e, id, bb, sym).code)
    decreases e
  {
    hide NoExits, NotCode, LogicalAndCode, TernaryCode, MakeOperands, BinaryCode, CompareCode, MinusCode, AssignCode,
      OpAssignCode, PostCode, VarCode;
    var none := Frag([], Const(0), id, bb, []);
    match e
    case Literal(_) => SimpleNoExits(none, ADD, id, bb, 0, true);
    case Var(x) => SimpleNoExits(none, ADD, id, bb, SlotOf(sym, x), true);
    case Post(x, increment) => SimpleNoExits(none, ADD, id, bb, SlotOf(sym, x), increment);
    case Not(e1) =>
      ExprNoExits(e1, id, bb, sym);
      NotNoExits(Lower(e1, id, bb, sym));
    case Minus(e1) =>
      ExprNoExits(e1, id, bb, sym);
      SimpleNoExits(Lower(e1, id, bb, sym), SUB, id, bb, 0, true);
    case Assign(x, e1) =>
      ExprNoExits(e1, id, bb, sym);
      SimpleNoExits(Lower(e1, id, bb, sym), ADD, id, bb, SlotOf(sym, x), true);
    case OpAssign(op, x, e1) =>
      ExprNoExits(e1, id, bb, sym);
      SimpleNoExits(Lower(e1, id, bb, sym), op, id, bb, SlotOf(sym, x), true);
    case Binary(op, l, r) =>
      var fl := Lower(l, id, bb, sym);
      ExprNoExits(l, id, bb, sym);
      ExprNoExits(r, fl.id, fl.bb, sym);
      PairNoExits(fl, Lower(r, fl.id, fl.bb, sym), op, EQ, CommutativeOp(op));
    case Compare(rel, l, r) =>
      var fl := Lower(l, id, bb, sym);
      ExprNoExits(l, id, bb, sym);
      ExprNoExits(r, fl.id, fl.bb, sym);
      PairNoExits(fl, Lower(r, fl.id, fl.bb, sym), ADD, rel, CommutativeRel(rel));
    case LogicalAnd(l, r) =>
      var fl := Lower(l, id + 1, bb + 4, sym);
      var rid := IdAfterBranch(fl.val, fl.id);
      ExprNoExits(l, id + 1, bb + 4, sym);
      ExprNoExits(r, rid, fl.bb, sym);
      AndNoExits(id, bb, fl, Lower(r, rid, fl.bb, sym));
    case Ternary(c, t, f) =>
      var fc := Lower(c, id, bb + 3, sym);
      var tid := IdAfterBranch(fc.val, fc.id);
      var ft := Lower(t, tid, fc.bb, sym);
      ExprNoExits(c, id, bb + 3, sym);
      ExprNoExits(t, tid, fc.bb, sym);
      ExprNoExits(f, ft.id + 1, ft.bb, sym);
      TernaryNoExits(bb, fc, ft, Lower(f, ft.id + 1, ft.bb, sym));
  }

  // ---------------------------------------------------------------------
  // Statements
  // ---------------------------------------------------------------------

  /** A condition and its branch. */
  lemma TestExits(f: Frag, target: nat)
    requires NoExits(f.code)
    ensures ExitsIn(Tested(f) + BranchIfZero(f.val, f.id, target)) == 0
  {
    TestedNoExits(f);
    BranchNoExits(f.val, f.id, target);
    NoExitsIn(Tested(f) + BranchIfZero(f.val, f.id, target));
  }

  lemma ExitsAppend5(a: seq<Instr>, b: seq<Instr>, c: seq<Instr>, d: seq<Instr>, e: seq<Instr>)
    requires NoExits(b) && NoExits(d)
    ensures ExitsIn(a + b + c + d + e) == ExitsIn(a) + ExitsIn(c) + ExitsIn(e)
  {
    hide ExitsIn;
    NoExitsIn(b);
    NoExitsIn(d);
    ExitsAppend(a, b);
    ExitsAppend(a + b, c);
    ExitsAppend(a + b + c, d);
    ExitsAppend(a + b + c + d, e);
  }

  lemma IfExits(end: nat, c: Frag, yes: nat, t: StmtFrag)
    requires NoExits(c.code)
    ensures ExitsIn(IfCode(end, c, yes, t).code) == ExitsIn(t.code)
  {
    hide Tested, BranchIfZero, IfCode;
    TestExits(c, end);
    IfParts(end, c, yes, t);
    var test := Tested(c) + BranchIfZero(c.val, c.id, end);
    ExitsAppend5(test, [Label(yes)], t.code, [Jump(end), Label(end)], []);
    assert test + [Label(yes)] + t.code + [Jump(end), Label(end)] + []
        == test + [Label(yes)] + t.code + [Jump(end), Label(end)];
  }

  lemma IfElseExits(bb: nat, c: Frag, yes: nat, t: StmtFrag, e: StmtFrag)
    requires NoExits(c.code)
    ensures ExitsIn(IfElseCode(bb, c, yes, t, e).code) == ExitsIn(t.code) + ExitsIn(e.code)
  {
    hide Tested, BranchIfZero, IfElseCode;
    TestExits(c, bb);
    IfElseParts(bb, c, yes, t, e);
    ExitsAppend(e.code, [Jump(bb + 1), Label(bb + 1)]);
    NoExitsIn([Jump(bb + 1), Label(bb + 1)]);
    ExitsAppend5(Tested(c) + BranchIfZero(c.val, c.id, bb), [Label(yes)], t.code, [Jump(bb + 1), Label(bb)],
      e.code + [Jump(bb + 1), Label(bb + 1)]);
  }

  lemma WhileExits(bb: nat, c: Frag, s: StmtFrag)
    requires NoExits(c.code)
    ensures ExitsIn(WhileCode(bb, c, s).code) == ExitsIn(s.code)
  {
    hide Tested, BranchIfZero, WhileCode;
    var test := Tested(c) + BranchIfZero(c.val, c.id, bb + 2);
    TestExits(c, bb + 2);
    WhileParts(bb, c, s);
    NoExitsIn([Jump(bb), Label(bb)]);
    NoExitsIn([Jump(bb), Label(bb + 2)]);
    ExitsAppend([Jump(bb), Label(bb)], test);
    ExitsAppend([Jump(bb), Label(bb)] + test, [Label(bb + 1)]);
    NoExitsIn([Label(bb + 1)]);
    ExitsAppend([Jump(bb), Label(bb)] + test + [Label(bb + 1)], s.code);
    ExitsAppend([Jump(bb), Label(bb)] + test + [Label(bb + 1)] + s.code, [Jump(bb), Label(bb + 2)]);
  }

  lemma ForExits(bb: nat, start: StmtFrag, c: Frag, s: StmtFrag, step: Frag)
    requires NoExits(c.code) && NoExits(step.code)
    ensures ExitsIn(ForCode(bb, start, c, s, step).code) == ExitsIn(start.code) + ExitsIn(s.code)
  {
    hide Tested, BranchIfZero, ForCode, ExitsIn;
    var test := Tested(c) + BranchIfZero(c.val, c.id, bb + 3);
    var tail := step.code + [Jump(bb), Label(bb + 3)];
    TestExits(c, bb + 3);
    ForParts(bb, start, c, s, step);
    NoExitsIn(tail);
    ExitsAppend5(start.code, [Jump(bb), Label(bb)], test, [Label(bb + 1)], s.code);
    var front := start.code + [Jump(bb), Label(bb)] + test + [Label(bb + 1)] + s.code;
    ExitsAppend(front, [Jump(bb + 2), Label(bb + 2)]);
    NoExitsIn([Jump(bb + 2), Label(bb + 2)]);
    ExitsAppend(front + [Jump(bb + 2), Label(bb + 2)], tail);
  }

  lemma {:induction false} TestsNoExits(cases: Cases, val: Operand, id: nat, k: nat)
    ensures NoExits(CaseTests(cases, val, id, k))
  {
    if cases.Case? {
      TestsNoExits(cases.rest, val, id + 1, if cases.stmts.Nil? then k else k + 1);
    }
  }

  lemma SwitchExits(bb: nat, c: Frag, cases: Cases, bodies: StmtFrag)
    requires NoExits(c.code)
    ensures ExitsIn(SwitchCode(bb, c, cases, bodies).code) == ExitsIn(bodies.code)
  {
    hide CaseTests, SwitchCode;
    var tests := CaseTests(cases, c.val, c.id, c.bb);
    TestsNoExits(cases, c.val, c.id, c.bb);
    SwitchParts(bb, c, cases, bodies, 0);
    NoExitsIn(c.code + tests + [Jump(bb + 1)]);
    NoExitsIn([Label(bb)]);
    ExitsAppend(c.code + tests + [Jump(bb + 1)], bodies.code);
    ExitsAppend(c.code + tests + [Jump(bb + 1)] + bodies.code, [Label(bb)]);
  }

  lemma ReturnExits(ctx: Context, f: Frag, sym: SymbolTable, hasValue: bool)
    requires NoExits(f.code)
    ensures ExitsIn(ReturnCode(ctx, f, sym, hasValue).code) == 1
  {
    NoExitsIn(f.code);
    var code := ReturnCode(ctx, f, sym, hasValue).code;
    ExitsAppend(f.code, code[|f.code|..]);
    assert code == f.code + code[|f.code|..];
    var exit := code[|f.code|..];
    OneExit(exit[0]);
    if |exit| == 2 {
      assert exit == [exit[0]] + [exit[1]];
      ExitsAppend([exit[0]], [exit[1]]);
      OneExit(exit[1]);
    } else {
      assert exit == [exit[0]];
    }
  }

  lemma OneExit(i: Instr)
    ensures ExitsIn([i]) == if IsExit(i) then 1 else 0
  {
    assert [i][1..] == [];
  }

  /** The main result: a statement's code leaves the function at as many places
      as the statement has returns. */
  lemma {:induction false} ExitsAreReturns(s: Stmt, id: nat, bb: nat, sym: SymbolTable, ctx: Context)
    ensures ExitsIn(LowerStmt(s, id, bb, sym, ctx).code) == Returns(s)
    decreases s
  {
    hide NoExits, ExitsIn, Lower, LowerList, LowerCases, IfCode, IfElseCode, WhileCode, ForCode, SwitchCode, ReturnCode,
      IdAfterBranch;
    NothingExits();
    NoExitsIn([]);
    match s
    case ExprStmt(e) =>
      ExprNoExits(e, id, bb, sym);
      NoExitsIn(Lower(e, id, bb, sym).code);
    case Decl(_, init) =>
      if init.Some? {
        var g := Lower(init.value, id + 1, bb, sym);
        ExprNoExits(init.value, id + 1, bb, sym);
        NoExitsIn(g.code);
        ExitsAppend(g.code, [Store(g.val, id)]);
        OneExit(Store(g.val, id));
      }
    case Compound(ss) => ListExits(ss, id, bb, sym, ctx);
    case If(c, thn) =>
      var fc := Lower(c, id, bb + 1, sym);
      var tid := IdAfterBranch(fc.val, fc.id);
      ExprNoExits(c, id, bb + 1, sym);
      ExitsAreReturns(thn, tid, fc.bb + 1, sym, ctx);
      IfExits(bb, fc, fc.bb, LowerStmt(thn, tid, fc.bb + 1, sym, ctx));
    case IfElse(c, thn, els) =>
      var fc := Lower(c, id, bb + 2, sym);
      var tid := IdAfterBranch(fc.val, fc.id);
      var ft := LowerStmt(thn, tid, fc.bb + 1, sym, ctx);
      ExprNoExits(c, id, bb + 2, sym);
      ExitsAreReturns(thn, tid, fc.bb + 1, sym, ctx);
      ExitsAreReturns(els, ft.id, ft.bb, ft.sym, ctx);
      IfElseExits(bb, fc, fc.bb, ft, LowerStmt(els, ft.id, ft.bb, ft.sym, ctx));
    case While(c, loop, _) =>
      var fc := Lower(c, id, bb + 3, sym);
      var lid := IdAfterBranch(fc.val, fc.id);
      ExprNoExits(c, id, bb + 3, sym);
      ExitsAreReturns(loop, lid, fc.bb, sym, WithBreak(ctx, bb + 2));
      WhileExits(bb, fc, LowerStmt(loop, lid, fc.bb, sym, WithBreak(ctx, bb + 2)));
    case For(start, c, step, loop) =>
      var f0 := LowerStmt(start, id, bb + 4, sym, ctx);
      var fc := Lower(c, f0.id, f0.bb, f0.sym);
      var lid := IdAfterBranch(fc.val, fc.id);
      var inner := WithLoop(ctx, bb + 3, bb + 2);
      var fs := LowerStmt(loop, lid, fc.bb, f0.sym, inner);
      ExitsAreReturns(start, id, bb + 4, sym, ctx);
      ExprNoExits(c, f0.id, f0.bb, f0.sym);
      ExitsAreReturns(loop, lid, fc.bb, f0.sym, inner);
      ExprNoExits(step, fs.id, fs.bb, fs.sym);
      ForExits(bb, f0, fc, fs, Lower(step, fs.id, fs.bb, fs.sym));
    case Switch(c, cases) =>
      var fc := Lower(c, id, bb + 2, sym);
      var inner := WithBreak(ctx, bb);
      var bid, bbb := fc.id + TestCount(cases), fc.bb + Bodies(cases);
      ExprNoExits(c, id, bb + 2, sym);
      CasesExits(cases, fc.bb, bb + 1, bid, bbb, sym, inner);
      SwitchExits(bb, fc, cases, LowerCases(cases, fc.bb, bb + 1, bid, bbb, sym, inner));
    case Break => JumpExits(Last(ctx.breaks));
    case Continue => JumpExits(Last(ctx.increments));
    case Return(ret) =>
      if ret.Some? { ExprNoExits(ret.value, id, bb, sym); }
      ReturnExits(ctx, if ret.Some? then Lower(ret.value, id, bb, sym) else Frag([], Const(0), id, bb, []), sym, true);
      ReturnExits(ctx, Frag([], Const(0), id, bb, []), sym, false);
  }

  lemma NothingExits()
    ensures NoExits([])
  {
  }

  lemma JumpExits(bb: nat)
    ensures ExitsIn([Jump(bb)]) == 0
  {
  }

  lemma {:induction false} ListExits(ss: Stmts, id: nat, bb: nat, sym: SymbolTable, ctx: Context)
    ensures ExitsIn(LowerList(ss, id, bb, sym, ctx).code) == ListReturns(ss)
    decreases ss
  {
    if ss.Cons? {
      var g := LowerStmt(ss.head, id, bb, sym, ctx);
      ExitsAreReturns(ss.head, id, bb, sym, ctx);
      ListExits(ss.tail, g.id, g.bb, g.sym, ctx);
      ExitsAppend(g.code, LowerList(ss.tail, g.id, g.bb, g.sym, ctx).code);
    }
  }

  lemma {:induction false} CasesExits(cases: Cases, k: nat, default: nat, id: nat, bb: nat, sym: SymbolTable,
                                      ctx: Context)
    ensures ExitsIn(LowerCases(cases, k, default, id, bb, sym, ctx).code) == CasesReturns(cases)
    decreases cases
  {
    hide LowerList, ExitsIn;
    var g := LowerList(cases.stmts, id, bb, sym, ctx);
    ListExits(cases.stmts, id, bb, sym, ctx);
    NoExitsIn([Label(default)]);
    NoExitsIn([Label(k)]);
    ExitsAppend([Label(default)], g.code);
    ExitsAppend([Label(k)], g.code);
    if cases.Case? {
      if cases.stmts.Nil? {
        CasesExits(cases.rest, k, default, id, bb, sym, ctx);
      } else {
        CasesExits(cases.rest, k + 1, default, g.id, g.bb, g.sym, ctx);
        ExitsAppend([Label(k)] + g.code, LowerCases(cases.rest, k + 1, default, g.id, g.bb, g.sym, ctx).code);
      }
    }
  }
}
