/** Jumps and branches go to blocks allocated by the same statement, or to the
    top of a target stack. */
module Targets {
  import opened Words
  import opened Source
  import opened IR
  import opened Lowering
  import opened StmtCorrectness
  import opened Blocks

  /** Jumps and branches go to a block in [lo, hi) or in out; None stands for
      the null target that is patched later. */
  predicate Goes(i: Instr, lo: nat, hi: nat, out: set<Option<nat>>) {
    && (i.Jump? || i.Branch? ==> lo <= i.bb < hi || Some(i.bb) in out)
    && (i.JumpToReturn? ==> None in out)
  }

  ghost predicate GoesAll(code: seq<Instr>, lo: nat, hi: nat, out: set<Option<nat>>) {
    forall i :: 0 <= i < |code| ==> Goes(code[i], lo, hi, out)
  }

  lemma GoesWider(code: seq<Instr>, lo: nat, hi: nat, out: set<Option<nat>>, lo': nat, hi': nat, out': set<Option<nat>>)
    requires GoesAll(code, lo, hi, out) && lo' <= lo && hi <= hi'
    requires forall t :: t in out ==> t in out' || (t.Some? && lo' <= t.value < hi')
    ensures GoesAll(code, lo', hi', out')
  {
  }

  lemma GoesAppend(a: seq<Instr>, b: seq<Instr>, lo: nat, hi: nat, out: set<Option<nat>>)
    ensures GoesAll(a + b, lo, hi, out) <==> GoesAll(a, lo, hi, out) && GoesAll(b, lo, hi, out)
  {
    assert forall i :: 0 <= i < |a| ==> (a + b)[i] == a[i];
    assert forall i :: 0 <= i < |b| ==> (a + b)[|a| + i] == b[i];
  }

  lemma GoesAppend5(a: seq<Instr>, b: seq<Instr>, c: seq<Instr>, d: seq<Instr>, e: seq<Instr>, lo: nat, hi: nat,
                    out: set<Option<nat>>)
    requires GoesAll(a, lo, hi, out) && GoesAll(b, lo, hi, out) && GoesAll(c, lo, hi, out) && GoesAll(d, lo, hi, out)
    requires GoesAll(e, lo, hi, out)
    ensures GoesAll(a + b + c + d, lo, hi, out) && GoesAll(a + b + c + d + e, lo, hi, out)
  {
    hide GoesAll;
    GoesAppend(a, b, lo, hi, out);
    GoesAppend(a + b, c, lo, hi, out);
    GoesAppend(a + b + c, d, lo, hi, out);
    GoesAppend(a + b + c + d, e, lo, hi, out);
  }

  lemma GoesAppend7(a: seq<Instr>, b: seq<Instr>, c: seq<Instr>, d: seq<Instr>, e: seq<Instr>, f: seq<Instr>,
                    g: seq<Instr>,
                    lo: nat, hi: nat, out: set<Option<nat>>)
    requires GoesAll(a, lo, hi, out) && GoesAll(b, lo, hi, out) && GoesAll(c, lo, hi, out) && GoesAll(d, lo, hi, out)
    requires GoesAll(e, lo, hi, out) && GoesAll(f, lo, hi, out) && GoesAll(g, lo, hi, out)
    ensures GoesAll(a + b + c + d + e + f + g, lo, hi, out)
  {
    hide GoesAll;
    GoesAppend5(a, b, c, d, e, lo, hi, out);
    GoesAppend(a + b + c + d + e, f, lo, hi, out);
    GoesAppend(a + b + c + d + e + f, g, lo, hi, out);
  }

  lemma GoesTest(f: Frag, id: nat, target: nat, lo: nat, hi: nat, out: set<Option<nat>>)
    requires GoesAll(f.code, lo, hi, out) && (lo <= target < hi || Some(target) in out)
    ensures GoesAll(Tested(f), lo, hi, out) && GoesAll(BranchIfZero(f.val, id, target), lo, hi, out)
    ensures GoesAll(Tested(f) + BranchIfZero(f.val, id, target), lo, hi, out)
  {
    assert forall i :: 0 <= i < |f.code| ==> Goes(Tested(f)[i], lo, hi, out) == Goes(f.code[i], lo, hi, out);
    GoesAppend(Tested(f), BranchIfZero(f.val, id, target), lo, hi, out);
  }

  /** A fixed tail whose jumps go to the given block. */
  lemma GoesFixed(code: seq<Instr>, target: nat, lo: nat, hi: nat, out: set<Option<nat>>)
    requires forall i :: 0 <= i < |code| && code[i].Jump? ==> code[i].bb == target
    requires forall i :: 0 <= i < |code| ==> !code[i].Branch? && !code[i].JumpToReturn?
    requires lo <= target < hi || Some(target) in out
    ensures GoesAll(code, lo, hi, out)
  {
  }

  // ---------------------------------------------------------------------
  // Expressions
  // ---------------------------------------------------------------------

  lemma SimpleGoes(id: nat, lo: nat, slot: nat, increment: bool)
    ensures GoesAll([], lo, lo, {})
    ensures GoesAll(VarCode(id, lo, slot).code, lo, lo, {}) &&
            GoesAll(PostCode(id, lo, slot, increment).code, lo, lo, {})
  {
  }

  lemma ExtendGoes(f: Frag, op: BinOp, slot: nat, lo: nat)
    requires GoesAll(f.code, lo, f.bb, {})
    ensures GoesAll(MinusCode(f).code, lo, f.bb, {}) && GoesAll(AssignCode(f, slot).code, lo, f.bb, {})
    ensures GoesAll(OpAssignCode(op, f, slot).code, lo, f.bb, {})
  {
  }

  lemma PairGoes(l: Frag, r: Frag, op: BinOp, rel: CompRel, commutative: bool, lo: nat)
    requires GoesAll(l.code, lo, l.bb, {}) && GoesAll(r.code, l.bb, r.bb, {}) && lo <= l.bb <= r.bb
    ensures var o := MakeOperands(l, r, commutative);
            GoesAll(BinaryCode(op, o).code, lo, r.bb, {}) && GoesAll(CompareCode(rel, o).code, lo, r.bb, {})
  {
  }

  lemma NotGoes(f: Frag, lo: nat)
    requires GoesAll(f.code, lo, f.bb, {}) && lo <= f.bb
    ensures GoesAll(NotCode(f).code, lo, f.bb + 2, {})
  {
    var slot, yes, end := f.id, f.bb, f.bb + 1;
    GoesFixed([Store(Const(1), slot)], end, lo, f.bb + 2, {});
    GoesFixed([Label(yes), Store(Const(0), slot), Jump(end), Label(end), Load(IdAfterBranch(f.val, slot + 1), slot)],
              end, lo, f.bb + 2, {});
    GoesFixed([], end, lo, f.bb + 2, {});
    hide Tested, BranchIfZero, GoesAll, NotCode;
    NotParts(f);
    GoesWider(f.code, lo, f.bb, {}, lo, f.bb + 2, {});
    GoesTest(f, slot + 1, end, lo, f.bb + 2, {});
    GoesAppend5(Tested(f), [Store(Const(1), slot)], BranchIfZero(f.val, slot + 1, end),
                [Label(yes), Store(Const(0), slot), Jump(end), Label(end),
                  Load(IdAfterBranch(f.val, slot + 1), slot)], [],
                lo, f.bb + 2, {});
  }

  lemma LogicalAndGoes(slot: nat, lo: nat, l: Frag, r: Frag)
    requires lo + 4 <= l.bb <= r.bb && GoesAll(l.code, lo + 4, l.bb, {}) && GoesAll(r.code, l.bb, r.bb, {})
    ensures GoesAll(LogicalAndCode(slot, lo, l, r).code, lo, r.bb, {})
  {
    var rhs, yes, no, end := lo, lo + 1, lo + 2, lo + 3;
    GoesFixed([Store(Const(0), slot)], end, lo, r.bb, {});
    GoesFixed([Label(rhs)], end, lo, r.bb, {});
    GoesFixed([Label(yes), Store(Const(1), slot), Jump(end),
               Label(no), Store(Const(0), slot), Jump(end),
               Label(end), Load(IdAfterBranch(r.val, r.id), slot)], end, lo, r.bb, {});
    hide Tested, BranchIfZero, GoesAll, LogicalAndCode;
    LogicalAndParts(slot, lo, l, r);
    GoesWider(l.code, lo + 4, l.bb, {}, lo, r.bb, {});
    GoesWider(r.code, l.bb, r.bb, {}, lo, r.bb, {});
    GoesTest(l, l.id, no, lo, r.bb, {});
    GoesTest(r, r.id, no, lo, r.bb, {});
    GoesAppend7([Store(Const(0), slot)], Tested(l), BranchIfZero(l.val, l.id, no), [Label(rhs)],
                Tested(r), BranchIfZero(r.val, r.id, no),
                [Label(yes), Store(Const(1), slot), Jump(end),
                 Label(no), Store(Const(0), slot), Jump(end),
                 Label(end), Load(IdAfterBranch(r.val, r.id), slot)], lo, r.bb, {});
  }

  lemma TernaryGoes(lo: nat, c: Frag, t: Frag, f: Frag)
    requires lo + 3 <= c.bb <= t.bb <= f.bb
    requires GoesAll(c.code, lo + 3, c.bb, {}) && GoesAll(t.code, c.bb, t.bb, {}) && GoesAll(f.code, t.bb, f.bb, {})
    ensures GoesAll(TernaryCode(lo, c, t, f).code, lo, f.bb, {})
  {
    var yes, no, end, slot := lo, lo + 1, lo + 2, t.id;
    GoesFixed([Label(yes)], end, lo, f.bb, {});
    GoesFixed([Store(t.val, slot), Jump(end), Label(no)], end, lo, f.bb, {});
    GoesFixed([Store(f.val, slot), Jump(end), Label(end)], end, lo, f.bb, {});
    hide Tested, BranchIfZero, GoesAll, TernaryCode;
    TernaryParts(lo, c, t, f);
    GoesWider(c.code, lo + 3, c.bb, {}, lo, f.bb, {});
    GoesWider(t.code, c.bb, t.bb, {}, lo, f.bb, {});
    GoesWider(f.code, t.bb, f.bb, {}, lo, f.bb, {});
    GoesTest(c, c.id, no, lo, f.bb, {});
    GoesAppend7(Tested(c), BranchIfZero(c.val, c.id, no), [Label(yes)], t.code,
      [Store(t.val, slot), Jump(end), Label(no)],
                f.code, [Store(f.val, slot), Jump(end), Label(end)], lo, f.bb, {});
  }

  /** An expression only jumps between its own blocks. */
  lemma {:induction false} ExprTargets(e: Expr, id: nat, lo: nat, sym: SymbolTable)
    ensures var f := Lower(e, id, lo, sym); GoesAll(f.code, lo, f.bb, {})
  {
    hide GoesAll, VarCode, PostCode, MinusCode, AssignCode, OpAssignCode, Fresh, ReturnsCompare;
    hide NotCode, LogicalAndCode, TernaryCode, BinaryCode, CompareCode, MakeOperands;
    match e
    case Literal(_) => SimpleGoes(id, lo, 0, true);
    case Var(x) => SimpleGoes(id, lo, SlotOf(sym, x), true);
    case Post(x, increment) => SimpleGoes(id, lo, SlotOf(sym, x), increment);
    case Not(e) =>
      ExprTargets(e, id, lo, sym);
      NotGoes(Lower(e, id, lo, sym), lo);
    case Minus(e) =>
      SimpleGoes(id, lo, 0, true);
      ExprTargets(e, id, lo, sym);
      ExtendGoes(Lower(e, id, lo, sym), ADD, 0, lo);
    case Assign(x, e) =>
      ExprTargets(e, id, lo, sym);
      ExtendGoes(Lower(e, id, lo, sym), ADD, SlotOf(sym, x), lo);
    case OpAssign(op, x, e) =>
      ExprTargets(e, id, lo, sym);
      ExtendGoes(Lower(e, id, lo, sym), op, SlotOf(sym, x), lo);
    case Binary(op, l, r) =>
      var fl := Lower(l, id, lo, sym);
      ExprTargets(l, id, lo, sym);
      ExprTargets(r, fl.id, fl.bb, sym);
      PairGoes(fl, Lower(r, fl.id, fl.bb, sym), op, EQ, CommutativeOp(op), lo);
    case Compare(rel, l, r) =>
      var fl := Lower(l, id, lo, sym);
      ExprTargets(l, id, lo, sym);
      ExprTargets(r, fl.id, fl.bb, sym);
      PairGoes(fl, Lower(r, fl.id, fl.bb, sym), ADD, rel, CommutativeRel(rel), lo);
    case LogicalAnd(l, r) =>
      var fl := Lower(l, id + 1, lo + 4, sym);
      ExprTargets(l, id + 1, lo + 4, sym);
      ExprTargets(r, IdAfterBranch(fl.val, fl.id), fl.bb, sym);
      LogicalAndGoes(id, lo, fl, Lower(r, IdAfterBranch(fl.val, fl.id), fl.bb, sym));
    case Ternary(c, t, f) =>
      var fc := Lower(c, id, lo + 3, sym);
      var ft := Lower(t, IdAfterBranch(fc.val, fc.id), fc.bb, sym);
      ExprTargets(c, id, lo + 3, sym);
      ExprTargets(t, IdAfterBranch(fc.val, fc.id), fc.bb, sym);
      ExprTargets(f, ft.id + 1, ft.bb, sym);
      TernaryGoes(lo, fc, ft, Lower(f, ft.id + 1, ft.bb, sym));
  }

  // ---------------------------------------------------------------------
  // Statements
  // ---------------------------------------------------------------------

  /** A `break` in s belongs to a loop or switch around s. */
  predicate Breaks(s: Stmt) {
    match s
    case Break => true
    case Compound(ss) => ListBreaks(ss)
    case If(_, thn) => Breaks(thn)
    case IfElse(_, thn, els) => Breaks(thn) || Breaks(els)
    case _ => false
  }

  predicate ListBreaks(ss: Stmts) {
    match ss
    case Nil => false
    case Cons(s, rest) => Breaks(s) || ListBreaks(rest)
  }

  /** The targets outside s that s may jump to. */
  function Outside(breaks: bool, continues: bool, ctx: Context): (r: set<Option<nat>>)
    ensures !breaks && !continues ==> r == NullTarget(ctx)
  {
    (if breaks then {Some(Last(ctx.breaks))} else {}) + (if continues then {Some(Last(ctx.increments))} else {}) +
      NullTarget(ctx)
  }

  /** Only a function that merges its returns jumps to null. */
  function NullTarget(ctx: Context): set<Option<nat>> {
    if ctx.merge.Some? then {None} else {}
  }

  lemma IfGoes(lo: nat, c: Frag, t: StmtFrag, out: set<Option<nat>>)
    requires lo + 1 <= c.bb && c.bb + 1 <= t.bb
    requires GoesAll(c.code, lo + 1, c.bb, {}) && GoesAll(t.code, c.bb + 1, t.bb, out)
    ensures GoesAll(IfCode(lo, c, c.bb, t).code, lo, t.bb, out)
  {
    GoesFixed([Label(c.bb)], lo, lo, t.bb, out);
    GoesFixed([Jump(lo), Label(lo)], lo, lo, t.bb, out);
    GoesFixed([], lo, lo, t.bb, out);
    hide Tested, BranchIfZero, GoesAll, IfCode;
    IfParts(lo, c, c.bb, t);
    GoesWider(c.code, lo + 1, c.bb, {}, lo, t.bb, out);
    GoesWider(t.code, c.bb + 1, t.bb, out, lo, t.bb, out);
    GoesTest(c, c.id, lo, lo, t.bb, out);
    GoesAppend5(Tested(c) + BranchIfZero(c.val, c.id, lo), [Label(c.bb)], t.code, [Jump(lo), Label(lo)], [], lo,
      t.bb, out);
  }

  lemma IfElseGoes(lo: nat, c: Frag, t: StmtFrag, e: StmtFrag, out: set<Option<nat>>)
    requires lo + 2 <= c.bb && c.bb + 1 <= t.bb <= e.bb
    requires GoesAll(c.code, lo + 2, c.bb, {}) && GoesAll(t.code, c.bb + 1, t.bb, out) &&
             GoesAll(e.code, t.bb, e.bb, out)
    ensures GoesAll(IfElseCode(lo, c, c.bb, t, e).code, lo, e.bb, out)
  {
    var els, end := lo, lo + 1;
    GoesFixed([Label(c.bb)], lo, lo, e.bb, out);
    GoesFixed([Jump(end), Label(els)], end, lo, e.bb, out);
    GoesFixed([Jump(end), Label(end)], end, lo, e.bb, out);
    hide Tested, BranchIfZero, GoesAll, IfElseCode;
    IfElseParts(lo, c, c.bb, t, e);
    GoesWider(c.code, lo + 2, c.bb, {}, lo, e.bb, out);
    GoesWider(t.code, c.bb + 1, t.bb, out, lo, e.bb, out);
    GoesWider(e.code, t.bb, e.bb, out, lo, e.bb, out);
    GoesTest(c, c.id, lo, lo, e.bb, out);
    GoesAppend(e.code, [Jump(end), Label(end)], lo, e.bb, out);
    GoesAppend5(Tested(c) + BranchIfZero(c.val, c.id, lo), [Label(c.bb)], t.code, [Jump(lo + 1), Label(lo)],
                e.code + [Jump(lo + 1), Label(lo + 1)], lo, e.bb, out);
  }

  lemma WhileGoes(lo: nat, c: Frag, s: StmtFrag, inner: set<Option<nat>>, out: set<Option<nat>>)
    requires lo + 3 <= c.bb <= s.bb && GoesAll(c.code, lo + 3, c.bb, {}) && GoesAll(s.code, c.bb, s.bb, inner)
    requires inner <= out + {Some(lo + 2)}
    ensures GoesAll(WhileCode(lo, c, s).code, lo, s.bb, out)
  {
    GoesFixed([Jump(lo), Label(lo)], lo, lo, s.bb, out);
    GoesFixed([Label(lo + 1)], lo, lo, s.bb, out);
    GoesFixed([Jump(lo), Label(lo + 2)], lo, lo, s.bb, out);
    hide Tested, BranchIfZero, GoesAll, WhileCode;
    WhileParts(lo, c, s);
    GoesWider(c.code, lo + 3, c.bb, {}, lo, s.bb, out);
    GoesWider(s.code, c.bb, s.bb, inner, lo, s.bb, out);
    GoesTest(c, c.id, lo + 2, lo, s.bb, out);
    GoesAppend5([Jump(lo), Label(lo)], Tested(c) + BranchIfZero(c.val, c.id, lo + 2), [Label(lo + 1)], s.code,
                [Jump(lo), Label(lo + 2)], lo, s.bb, out);
  }

  lemma ForGoes(lo: nat, start: StmtFrag, c: Frag, s: StmtFrag, step: Frag, inner: set<Option<nat>>,
                out: set<Option<nat>>)
    requires lo + 4 <= start.bb <= c.bb <= s.bb <= step.bb
    requires GoesAll(start.code, lo + 4, start.bb, out) && GoesAll(c.code, start.bb, c.bb, {})
    requires GoesAll(s.code, c.bb, s.bb, inner) && GoesAll(step.code, s.bb, step.bb, {}) &&
             inner <= out + {Some(lo + 2), Some(lo + 3)}
    ensures GoesAll(ForCode(lo, start, c, s, step).code, lo, step.bb, out)
  {
    GoesFixed([Jump(lo), Label(lo)], lo, lo, step.bb, out);
    GoesFixed([Label(lo + 1)], lo, lo, step.bb, out);
    GoesFixed([Jump(lo + 2), Label(lo + 2)], lo + 2, lo, step.bb, out);
    GoesFixed([Jump(lo), Label(lo + 3)], lo, lo, step.bb, out);
    hide Tested, BranchIfZero, GoesAll, ForCode;
    ForParts(lo, start, c, s, step);
    GoesWider(start.code, lo + 4, start.bb, out, lo, step.bb, out);
    GoesWider(c.code, start.bb, c.bb, {}, lo, step.bb, out);
    GoesWider(s.code, c.bb, s.bb, inner, lo, step.bb, out);
    GoesWider(step.code, s.bb, step.bb, {}, lo, step.bb, out);
    GoesTest(c, c.id, lo + 3, lo, step.bb, out);
    GoesAppend(step.code, [Jump(lo), Label(lo + 3)], lo, step.bb, out);
    GoesAppend7(start.code, [Jump(lo), Label(lo)], Tested(c) + BranchIfZero(c.val, c.id, lo + 3), [Label(lo + 1)],
      s.code,
                [Jump(lo + 2), Label(lo + 2)], step.code + [Jump(lo), Label(lo + 3)], lo, step.bb, out);
  }

  /** Each test branches to a block of a body. */
  lemma {:induction false} TestsGo(cases: Cases, val: Operand, id: nat, k: nat, hi: nat)
    requires LastHasBody(cases) && k + Bodies(cases) <= hi
    ensures GoesAll(CaseTests(cases, val, id, k), k, hi, {})
  {
    match cases
    case Default(_) =>
    case Case(n, ss, rest) =>
      var k' := if ss.Nil? then k else k + 1;
      assert ss.Nil? ==> rest.Case?;
      if ss.Nil? { HasBody(rest); }
      TestsGo(rest, val, id + 1, k', hi);
      var test := [Cmp(id, EQ, val, Const(n)), Branch(CmpResult(id), k)];
      assert GoesAll(test, k, hi, {});
      GoesWider(CaseTests(rest, val, id + 1, k'), k', hi, {}, k, hi, {});
      GoesAppend(test, CaseTests(rest, val, id + 1, k'), k, hi, {});
  }

  lemma {:induction false} HasBody(cases: Cases)
    requires cases.Case? && LastHasBody(cases)
    ensures Bodies(cases) > 0
  {
    if cases.stmts.Nil? { HasBody(cases.rest); }
  }

  lemma SwitchEnds(lo: nat, hi: nat, out: set<Option<nat>>)
    requires lo + 2 <= hi
    ensures GoesAll([Jump(lo + 1)], lo, hi, out) && GoesAll([Label(lo)], lo, hi, out)
  {
    GoesFixed([Jump(lo + 1)], lo + 1, lo, hi, out);
    GoesFixed([Label(lo)], lo, lo, hi, out);
  }

  lemma SwitchGoes(lo: nat, c: Frag, cases: Cases, bodies: StmtFrag, inner: set<Option<nat>>, out: set<Option<nat>>)
    requires lo + 2 <= c.bb && c.bb + Bodies(cases) <= bodies.bb && GoesAll(c.code, lo + 2, c.bb, {}) &&
             LastHasBody(cases)
    requires GoesAll(bodies.code, c.bb + Bodies(cases), bodies.bb, inner) && inner <= out + {Some(lo)}
    ensures GoesAll(SwitchCode(lo, c, cases, bodies).code, lo, bodies.bb, out)
  {
    hide GoesAll, SwitchCode, CaseTests, Bodies, LastHasBody;
    SwitchEnds(lo, bodies.bb, out);
    var tests := CaseTests(cases, c.val, c.id, c.bb);
    SwitchParts(lo, c, cases, bodies, 0);
    TestsGo(cases, c.val, c.id, c.bb, bodies.bb);
    GoesWider(tests, c.bb, bodies.bb, {}, lo, bodies.bb, out);
    GoesWider(c.code, lo + 2, c.bb, {}, lo, bodies.bb, out);
    GoesWider(bodies.code, c.bb + Bodies(cases), bodies.bb, inner, lo, bodies.bb, out);
    GoesAppend5(c.code, tests, [Jump(lo + 1)], bodies.code, [Label(lo)], lo, bodies.bb, out);
  }

  lemma ReturnGoes(ctx: Context, f: Frag, sym: SymbolTable, hasValue: bool, lo: nat)
    requires GoesAll(f.code, lo, f.bb, {})
    ensures GoesAll(ReturnCode(ctx, f, sym, hasValue).code, lo, f.bb, NullTarget(ctx))
  {
  }

  lemma JumpGoes(target: nat, lo: nat, out: set<Option<nat>>)
    requires Some(target) in out
    ensures GoesAll([Jump(target)], lo, lo, out)
  {
  }

  /** A statement only leaves its own blocks through its breaks and continues. */
  lemma {:induction false} StmtTargets(s: Stmt, id: nat, lo: nat, sym: SymbolTable, ctx: Context, scope: set<string>)
    requires Supported(s, scope)
    ensures var f := LowerStmt(s, id, lo, sym, ctx);
            GoesAll(f.code, lo, f.bb, Outside(Breaks(s), Continues(s), ctx))
    decreases s, 1
  {
    hide GoesAll, Lower, LowerList, LowerDecl, LowerIf, LowerIfElse, LowerWhile, LowerFor, LowerSwitch, LowerReturn;
    var out := Outside(Breaks(s), Continues(s), ctx);
    match s
    case ExprStmt(e) =>
      ExprTargets(e, id, lo, sym);
      GoesWider(Lower(e, id, lo, sym).code, lo, Lower(e, id, lo, sym).bb, {}, lo, Lower(e, id, lo, sym).bb, out);
    case Decl(x, init) => DeclTargets(x, init, id, lo, sym, ctx);
    case Compound(ss) => ListTargets(ss, id, lo, sym, ctx, scope);
    case If(_, _) => IfTargets(s, id, lo, sym, ctx, scope);
    case IfElse(_, _, _) => IfElseTargets(s, id, lo, sym, ctx, scope);
    case While(_, _, _) => WhileTargets(s, id, lo, sym, ctx, scope);
    case For(_, _, _, _) => ForTargets(s, id, lo, sym, ctx, scope);
    case Switch(_, _) => SwitchTargets(s, id, lo, sym, ctx, scope);
    case Break => JumpGoes(Last(ctx.breaks), lo, out);
    case Continue => JumpGoes(Last(ctx.increments), lo, out);
    case Return(ret) => ReturnTargets(ret, id, lo, sym, ctx);
  }

  lemma DeclTargets(x: string, init: Option<Expr>, id: nat, lo: nat, sym: SymbolTable, ctx: Context)
    ensures var f := LowerDecl(x, init, id, lo, sym); GoesAll(f.code, lo, f.bb, NullTarget(ctx))
  {
    hide Lower, GoesAll;
    if init.Some? {
      var g := Lower(init.value, id + 1, lo, sym);
      ExprTargets(init.value, id + 1, lo, sym);
      ExtendGoes(g, ADD, id, lo);
      GoesWider(AssignCode(g, id).code, lo, g.bb, {}, lo, g.bb, NullTarget(ctx));
    } else {
      SimpleGoes(id, lo, 0, true);
      GoesWider([], lo, lo, {}, lo, lo, NullTarget(ctx));
    }
  }

  lemma IfTargets(s: Stmt, id: nat, lo: nat, sym: SymbolTable, ctx: Context, scope: set<string>)
    requires s.If? && Supported(s, scope)
    ensures var f := LowerIf(s, id, lo, sym, ctx);
            GoesAll(f.code, lo, f.bb, Outside(Breaks(s.thn), Continues(s.thn), ctx))
    decreases s, 0
  {
    hide GoesAll, IfCode, Lower;
    var fc := Lower(s.c, id, lo + 1, sym);
    ExprTargets(s.c, id, lo + 1, sym);
    StmtTargets(s.thn, IdAfterBranch(fc.val, fc.id), fc.bb + 1, sym, ctx, scope);
    IfGoes(lo, fc, LowerStmt(s.thn, IdAfterBranch(fc.val, fc.id), fc.bb + 1, sym, ctx),
           Outside(Breaks(s.thn), Continues(s.thn), ctx));
  }

  lemma IfElseTargets(s: Stmt, id: nat, lo: nat, sym: SymbolTable, ctx: Context, scope: set<string>)
    requires s.IfElse? && Supported(s, scope)
    ensures var f := LowerIfElse(s, id, lo, sym, ctx); GoesAll(f.code, lo, f.bb, Outside(Breaks(s), Continues(s), ctx))
    decreases s, 0
  {
    hide GoesAll, IfElseCode, Lower;
    var out := Outside(Breaks(s), Continues(s), ctx);
    var fc := Lower(s.c, id, lo + 2, sym);
    var ft := LowerStmt(s.thn, IdAfterBranch(fc.val, fc.id), fc.bb + 1, sym, ctx);
    var fe := LowerStmt(s.els, ft.id, ft.bb, ft.sym, ctx);
    ExprTargets(s.c, id, lo + 2, sym);
    StmtTargets(s.thn, IdAfterBranch(fc.val, fc.id), fc.bb + 1, sym, ctx, scope);
    StmtTargets(s.els, ft.id, ft.bb, ft.sym, ctx, scope);
    GoesWider(ft.code, fc.bb + 1, ft.bb, Outside(Breaks(s.thn), Continues(s.thn), ctx), fc.bb + 1, ft.bb, out);
    GoesWider(fe.code, ft.bb, fe.bb, Outside(Breaks(s.els), Continues(s.els), ctx), ft.bb, fe.bb, out);
    IfElseGoes(lo, fc, ft, fe, out);
  }

  lemma WhileTargets(s: Stmt, id: nat, lo: nat, sym: SymbolTable, ctx: Context, scope: set<string>)
    requires s.While? && Supported(s, scope)
    ensures var f := LowerWhile(s, id, lo, sym, ctx); GoesAll(f.code, lo, f.bb, Outside(Breaks(s), Continues(s), ctx))
    decreases s, 0
  {
    hide GoesAll, WhileCode, Lower;
    var fc := Lower(s.c, id, lo + 3, sym);
    var inner := WithBreak(ctx, lo + 2);
    ExprTargets(s.c, id, lo + 3, sym);
    StmtTargets(s.loop, IdAfterBranch(fc.val, fc.id), fc.bb, sym, inner, scope);
    WhileGoes(lo, fc, LowerStmt(s.loop, IdAfterBranch(fc.val, fc.id), fc.bb, sym, inner),
              Outside(Breaks(s.loop), Continues(s.loop), inner), Outside(Breaks(s), Continues(s), ctx));
  }

  lemma ForTargets(s: Stmt, id: nat, lo: nat, sym: SymbolTable, ctx: Context, scope: set<string>)
    requires s.For? && Supported(s, scope)
    ensures var f := LowerFor(s, id, lo, sym, ctx); GoesAll(f.code, lo, f.bb, NullTarget(ctx))
    decreases s, 0
  {
    hide GoesAll, ForCode, Lower;
    var f0 := LowerStmt(s.start, id, lo + 4, sym, ctx);
    var fc := Lower(s.c, f0.id, f0.bb, f0.sym);
    var inner := WithLoop(ctx, lo + 3, lo + 2);
    var lid := IdAfterBranch(fc.val, fc.id);
    var fs := LowerStmt(s.loop, lid, fc.bb, f0.sym, inner);
    StmtTargets(s.start, id, lo + 4, sym, ctx, scope);
    ExprTargets(s.c, f0.id, f0.bb, f0.sym);
    StmtTargets(s.loop, lid, fc.bb, f0.sym, inner, ScopeAfter(s.start, scope));
    ExprTargets(s.step, fs.id, fs.bb, fs.sym);
    ForGoes(lo, f0, fc, fs, Lower(s.step, fs.id, fs.bb, fs.sym), Outside(Breaks(s.loop), Continues(s.loop), inner),
      NullTarget(ctx));
  }

  lemma SwitchTargets(s: Stmt, id: nat, lo: nat, sym: SymbolTable, ctx: Context, scope: set<string>)
    requires s.Switch? && Supported(s, scope)
    ensures var f := LowerSwitch(s, id, lo, sym, ctx);
            GoesAll(f.code, lo, f.bb, Outside(false, CasesContinue(s.cases), ctx))
    decreases s, 0
  {
    hide GoesAll, SwitchCode, Lower, LowerCases;
    var fc := Lower(s.c, id, lo + 2, sym);
    var inner := WithBreak(ctx, lo);
    var bid, bbb := fc.id + TestCount(s.cases), fc.bb + Bodies(s.cases);
    ExprTargets(s.c, id, lo + 2, sym);
    CasesTargets(s.cases, fc.bb, lo + 1, bid, bbb, sym, inner, scope);
    SwitchGoes(lo, fc, s.cases, LowerCases(s.cases, fc.bb, lo + 1, bid, bbb, sym, inner),
               Outside(true, CasesContinue(s.cases), inner), Outside(false, CasesContinue(s.cases), ctx));
  }

  lemma ReturnTargets(ret: Option<Expr>, id: nat, lo: nat, sym: SymbolTable, ctx: Context)
    ensures var f := LowerStmt(Return(ret), id, lo, sym, ctx); GoesAll(f.code, lo, f.bb, NullTarget(ctx))
  {
    hide Lower, ReturnCode, GoesAll;
    if ret.Some? && !ctx.isVoid {
      ExprTargets(ret.value, id, lo, sym);
      ReturnGoes(ctx, Lower(ret.value, id, lo, sym), sym, true, lo);
    } else {
      SimpleGoes(id, lo, 0, true);
      ReturnGoes(ctx, Frag([], Const(0), id, lo, []), sym, false, lo);
    }
  }

  lemma {:induction false} ListTargets(ss: Stmts, id: nat, lo: nat, sym: SymbolTable, ctx: Context, scope: set<string>)
    requires ListSupported(ss, scope)
    ensures var f := LowerList(ss, id, lo, sym, ctx);
            GoesAll(f.code, lo, f.bb, Outside(ListBreaks(ss), ListContinues(ss), ctx))
    decreases ss
  {
    hide GoesAll, LowerStmt;
    match ss
    case Nil =>
      SimpleGoes(id, lo, 0, true);
      GoesWider([], lo, lo, {}, lo, lo, Outside(false, false, ctx));
    case Cons(s, rest) =>
      var out := Outside(ListBreaks(ss), ListContinues(ss), ctx);
      var g := LowerStmt(s, id, lo, sym, ctx);
      var h := LowerList(rest, g.id, g.bb, g.sym, ctx);
      StmtTargets(s, id, lo, sym, ctx, scope);
      ListTargets(rest, g.id, g.bb, g.sym, ctx, ScopeAfter(s, scope));
      GoesWider(g.code, lo, g.bb, Outside(Breaks(s), Continues(s), ctx), lo, h.bb, out);
      GoesWider(h.code, g.bb, h.bb, Outside(ListBreaks(rest), ListContinues(rest), ctx), lo, h.bb, out);
      GoesAppend(g.code, h.code, lo, h.bb, out);
  }

  lemma {:induction false} CasesTargets(cases: Cases, k: nat, default: nat, id: nat, lo: nat, sym: SymbolTable,
                                        ctx: Context, scope: set<string>)
    requires CasesSupported(cases, scope)
    ensures var f := LowerCases(cases, k, default, id, lo, sym, ctx);
            GoesAll(f.code, lo, f.bb, Outside(true, CasesContinue(cases), ctx))
    decreases cases
  {
    hide LowerList;
    var out := Outside(true, CasesContinue(cases), ctx);
    match cases
    case Default(ss) =>
      var g := LowerList(ss, id, lo, sym, ctx);
      LabelGoes(default, lo, g.bb, out);
      hide GoesAll;
      ListTargets(ss, id, lo, sym, ctx, scope);
      GoesWider(g.code, lo, g.bb, Outside(ListBreaks(ss), ListContinues(ss), ctx), lo, g.bb, out);
      GoesAppend([Label(default)], g.code, lo, g.bb, out);
    case Case(_, ss, rest) =>
      hide GoesAll;
      if ss.Nil? {
        CasesTargets(rest, k, default, id, lo, sym, ctx, ScopeAfterList(ss, scope));
      } else {
        var g := LowerList(ss, id, lo, sym, ctx);
        var h := LowerCases(rest, k + 1, default, g.id, g.bb, g.sym, ctx);
        ListTargets(ss, id, lo, sym, ctx, scope);
        CasesTargets(rest, k + 1, default, g.id, g.bb, g.sym, ctx, ScopeAfterList(ss, scope));
        LabelGoes(k, lo, h.bb, out);
        GoesWider(g.code, lo, g.bb, Outside(ListBreaks(ss), ListContinues(ss), ctx), lo, h.bb, out);
        GoesWider(h.code, g.bb, h.bb, Outside(true, CasesContinue(rest), ctx), lo, h.bb, out);
        GoesAppend([Label(k)], g.code, lo, h.bb, out);
        GoesAppend([Label(k)] + g.code, h.code, lo, h.bb, out);
      }
  }

  lemma LabelGoes(l: nat, lo: nat, hi: nat, out: set<Option<nat>>)
    ensures GoesAll([Label(l)], lo, hi, out)
  {
  }
}
