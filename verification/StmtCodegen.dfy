/** Code generation for statements and functions: the methods that walk the
    syntax tree, push and pop the target stacks, and emit into the factory. */
module StmtCodegen {
  import opened Words
  import opened Source
  import opened IR
  import opened Lowering
  import opened ExprCorrectness
  import opened StmtCorrectness
  import opened Targets
  import opened Blocks
  import opened Factory
  import opened Codegen
  import opened Functions
  import opened Slots

  /** What the code generator insists on: a target for every `break` and
      `continue`, and a body for the last case of a switch. */
  predicate Generates(s: Stmt, breaks: bool, continues: bool) {
    match s
    case Break => breaks
    case Continue => continues
    case Compound(ss) => ListGenerates(ss, breaks, continues)
    case If(_, thn) => Generates(thn, breaks, continues)
    case IfElse(_, thn, els) => Generates(thn, breaks, continues) && Generates(els, breaks, continues)
    case While(_, loop, _) => Generates(loop, true, continues)
    case For(start, _, _, loop) => Generates(start, breaks, continues) && Generates(loop, true, true)
    case Switch(_, cases) => LastHasBody(cases) && CasesGenerate(cases, true, continues)
    case _ => true
  }

  predicate ListGenerates(ss: Stmts, breaks: bool, continues: bool) {
    match ss
    case Nil => true
    case Cons(s, rest) => Generates(s, breaks, continues) && ListGenerates(rest, breaks, continues)
  }

  predicate CasesGenerate(cases: Cases, breaks: bool, continues: bool) {
    match cases
    case Default(ss) => ListGenerates(ss, breaks, continues)
    case Case(_, ss, rest) => ListGenerates(ss, breaks, continues) && CasesGenerate(rest, breaks, continues)
  }

  predicate HasBreak(s: State) { s.ctx.breaks != [] }

  predicate HasIncrement(s: State) { s.ctx.increments != [] }

  function Emitted(s: Stmt, s0: State): StmtFrag {
    LowerStmt(s, s0.id, s0.bb, s0.sym, s0.ctx)
  }

  function ListEmitted(ss: Stmts, s0: State): StmtFrag {
    LowerList(ss, s0.id, s0.bb, s0.sym, s0.ctx)
  }

  lemma AfterTwice(s: State, f: StmtFrag, g: StmtFrag)
    ensures AfterStmt(AfterStmt(s, f), g)
            == AfterStmt(s, StmtFrag(f.code + g.code, g.id, g.bb, g.sym, f.allocs + g.allocs))
  {
    Regroup(s.listing, f.code, g.code);
    Regroup(s.allocs, f.allocs, g.allocs);
  }

  method GenerateDecl(x: string, init: Option<Expr>, IRF: IRFactory)
    requires IRF.Valid()
    modifies IRF
    ensures IRF.Valid()
    ensures IRF.st == AfterStmt(old(IRF.st), Emitted(Decl(x, init), old(IRF.st)))
  {
    hide IRFactory.Valid, Reserved, Resolves, StmtResolves, Lower;
    ghost var s := IRF.st;
    var slot := IRF.CreateSA();
    if init.Some? {
      ghost var f := Lower(init.value, s.id + 1, s.bb, s.sym);
      var val := GenerateExpr(init.value, IRF);
      IRF.Insert(Store(val, slot));
      Regroup(s.listing, f.code, [Store(val, slot)]);
      Regroup(s.allocs, [slot], f.allocs);
    } else {
      Nothing(s.listing);
    }
    IRF.AddToSymbolTable(x, slot);
  }

  method GenerateReturn(ret: Option<Expr>, IRF: IRFactory)
    requires IRF.Valid()
    modifies IRF
    ensures IRF.Valid()
    ensures IRF.st == AfterStmt(old(IRF.st), Emitted(Return(ret), old(IRF.st)))
  {
    hide IRFactory.Valid, Reserved, Resolves, StmtResolves, Lower;
    ghost var s := IRF.st;
    var ctx := IRF.GetContext();
    if ret.Some? && !ctx.isVoid {
      ghost var f := Lower(ret.value, s.id, s.bb, s.sym);
      var val := GenerateExpr(ret.value, IRF);
      if ctx.merge.Some? {
        IRF.Insert(Store(val, ctx.merge.value));
        IRF.Insert(JumpToReturn);
        Insert2(s.listing + f.code, Store(val, ctx.merge.value), JumpToReturn);
        Regroup(s.listing, f.code, [Store(val, ctx.merge.value), JumpToReturn]);
      } else {
        IRF.Insert(Ret(Some(val)));
        Regroup(s.listing, f.code, [Ret(Some(val))]);
      }
    } else {
      Nothing(s.allocs);
      IRF.Insert(if ctx.merge.Some? then JumpToReturn else Ret(None));
    }
  }

  method GenerateIf(c: Expr, thn: Stmt, IRF: IRFactory)
    requires IRF.Valid() && Generates(thn, HasBreak(IRF.st), HasIncrement(IRF.st))
    modifies IRF
    ensures IRF.Valid()
    ensures IRF.st == AfterStmt(old(IRF.st), Emitted(If(c, thn), old(IRF.st)))
    decreases If(c, thn), 0
  {
    hide IRFactory.Valid, Reserved, Resolves, StmtResolves, Lower, LowerStmt, Tested, BranchIfZero, IdAfterBranch,
      IfCode, Generates;
    ghost var s := IRF.st;
    IfUnfolds(c, thn, s);
    var end := IRF.NewBlock();
    ghost var fc := Lower(c, s.id, s.bb + 1, s.sym);
    TestExpr(c, end, IRF);
    var yes := IRF.NewBlock();
    IRF.InsertBB(yes, "if_true");
    ghost var ft := Emitted(thn, IRF.st);
    GenerateStatement(thn, IRF);
    CloseBlock(end, end, "if_end", IRF);
    IfEmits(s, fc, ft);
  }

  lemma IfUnfolds(c: Expr, thn: Stmt, s: State)
    ensures var fc := Lower(c, s.id, s.bb + 1, s.sym);
            Emitted(If(c, thn), s)
            == IfCode(s.bb, fc, fc.bb, LowerStmt(thn, IdAfterBranch(fc.val, fc.id), fc.bb + 1, s.sym, s.ctx))
  {
    hide Lower, IfCode, IfElseCode, WhileCode, ForCode, SwitchCode, ReturnCode, LowerList, LowerCases, IdAfterBranch;
    var stmt := If(c, thn);
    assert LowerStmt(stmt, s.id, s.bb, s.sym, s.ctx) == LowerIf(stmt, s.id, s.bb, s.sym, s.ctx);
  }

  lemma IfEmits(s: State, c: Frag, t: StmtFrag)
    ensures var f := IfCode(s.bb, c, c.bb, t);
            && s.allocs + f.allocs == s.allocs + c.allocs + t.allocs
            && s.listing + f.code
               == s.listing + (Tested(c) + BranchIfZero(c.val, c.id, s.bb)) + [Label(c.bb)] + t.code
                  + [Jump(s.bb), Label(s.bb)]
  {
    hide Tested, BranchIfZero, IfCode;
    IfParts(s.bb, c, c.bb, t);
    Concat4(s.listing, Tested(c) + BranchIfZero(c.val, c.id, s.bb), [Label(c.bb)], t.code, [Jump(s.bb), Label(s.bb)]);
    assert IfCode(s.bb, c, c.bb, t).allocs == c.allocs + t.allocs by { IfAllocs(s.bb, c, t); }
    Regroup(s.allocs, c.allocs, t.allocs);
  }

  lemma IfAllocs(bb: nat, c: Frag, t: StmtFrag)
    ensures IfCode(bb, c, c.bb, t).allocs == c.allocs + t.allocs
  {
  }

  method GenerateIfElse(c: Expr, thn: Stmt, els: Stmt, IRF: IRFactory)
    requires IRF.Valid() && Generates(thn, HasBreak(IRF.st), HasIncrement(IRF.st))
    requires Generates(els, HasBreak(IRF.st), HasIncrement(IRF.st))
    modifies IRF
    ensures IRF.Valid()
    ensures IRF.st == AfterStmt(old(IRF.st), Emitted(IfElse(c, thn, els), old(IRF.st)))
    decreases IfElse(c, thn, els), 0
  {
    hide IRFactory.Valid, Reserved, Resolves, StmtResolves, Lower, LowerStmt, Tested, BranchIfZero, IdAfterBranch,
      IfElseCode, Generates;
    ghost var s := IRF.st;
    IfElseUnfolds(c, thn, els, s);
    var no := IRF.NewBlock();
    var end := IRF.NewBlock();
    ghost var fc := Lower(c, s.id, s.bb + 2, s.sym);
    TestExpr(c, no, IRF);
    var yes := IRF.NewBlock();
    IRF.InsertBB(yes, "if_true");
    ghost var ft := Emitted(thn, IRF.st);
    GenerateStatement(thn, IRF);
    CloseBlock(end, no, "if_else", IRF);
    ghost var fe := Emitted(els, IRF.st);
    GenerateStatement(els, IRF);
    CloseBlock(end, end, "if_end", IRF);
    IfElseEmits(s, fc, ft, fe);
  }

  lemma IfElseUnfolds(c: Expr, thn: Stmt, els: Stmt, s: State)
    ensures var fc := Lower(c, s.id, s.bb + 2, s.sym);
            var ft := LowerStmt(thn, IdAfterBranch(fc.val, fc.id), fc.bb + 1, s.sym, s.ctx);
            Emitted(IfElse(c, thn, els), s)
            == IfElseCode(s.bb, fc, fc.bb, ft, LowerStmt(els, ft.id, ft.bb, ft.sym, s.ctx))
  {
    hide Lower, IfCode, IfElseCode, WhileCode, ForCode, SwitchCode, ReturnCode, LowerList, LowerCases, IdAfterBranch;
    var stmt := IfElse(c, thn, els);
    assert LowerStmt(stmt, s.id, s.bb, s.sym, s.ctx) == LowerIfElse(stmt, s.id, s.bb, s.sym, s.ctx);
  }

  lemma IfElseEmits(s: State, c: Frag, t: StmtFrag, e: StmtFrag)
    ensures var f := IfElseCode(s.bb, c, c.bb, t, e);
            && s.allocs + f.allocs == s.allocs + c.allocs + t.allocs + e.allocs
            && s.listing + f.code
               == s.listing + (Tested(c) + BranchIfZero(c.val, c.id, s.bb)) + [Label(c.bb)] + t.code
                  + [Jump(s.bb + 1), Label(s.bb)] + e.code + [Jump(s.bb + 1), Label(s.bb + 1)]
  {
    hide Tested, BranchIfZero;
    var test := Tested(c) + BranchIfZero(c.val, c.id, s.bb);
    Concat3(s.allocs, c.allocs, t.allocs, e.allocs);
    Concat7(s.listing, Tested(c), BranchIfZero(c.val, c.id, s.bb), [Label(c.bb)], t.code,
            [Jump(s.bb + 1), Label(s.bb)], e.code, [Jump(s.bb + 1), Label(s.bb + 1)]);
    Regroup(s.listing, Tested(c), BranchIfZero(c.val, c.id, s.bb));
  }

  /** The jump to a loop's header, its test, and the label of its body. */
  method OpenLoop(c: Expr, header: nat, body: nat, end: nat, IRF: IRFactory)
    requires IRF.Valid()
    modifies IRF
    ensures IRF.Valid()
    ensures var s := old(IRF.st);
            var f := Lower(c, s.id, s.bb, s.sym);
            IRF.st == s.(listing := s.listing + [Jump(header), Label(header)]
                                      + (Tested(f) + BranchIfZero(f.val, f.id, end)) + [Label(body)],
                         allocs := s.allocs + f.allocs, id := IdAfterBranch(f.val, f.id), bb := f.bb)
  {
    hide IRFactory.Valid, Reserved, Resolves, StmtResolves, Lower, Tested, BranchIfZero, IdAfterBranch;
    CloseBlock(header, header, "loop_header", IRF);
    TestExpr(c, end, IRF);
    IRF.InsertBB(body, "loop_body");
  }

  /** The body of a while, with its end as the target of breaks. */
  method GenerateWhileBody(loop: Stmt, end: nat, IRF: IRFactory)
    requires IRF.Valid() && Generates(loop, true, HasIncrement(IRF.st))
    modifies IRF
    ensures IRF.Valid()
    ensures var s := old(IRF.st);
            IRF.st == AfterStmt(s, LowerStmt(loop, s.id, s.bb, s.sym, WithBreak(s.ctx, end)))
    decreases loop, 6
  {
    hide IRFactory.Valid, Reserved, Resolves, StmtResolves, LowerStmt, Generates;
    ghost var ctx := IRF.st.ctx;
    IRF.PushBreak(end);
    GenerateStatement(loop, IRF);
    IRF.PopBreak();
    PushPop(ctx, end, 0);
  }

  method GenerateWhile(c: Expr, loop: Stmt, own: bool, IRF: IRFactory)
    requires IRF.Valid() && Generates(loop, true, HasIncrement(IRF.st))
    modifies IRF
    ensures IRF.Valid()
    ensures IRF.st == AfterStmt(old(IRF.st), Emitted(While(c, loop, own), old(IRF.st)))
    decreases While(c, loop, own), 0
  {
    hide IRFactory.Valid, Reserved, Resolves, StmtResolves, Lower, LowerStmt, Tested, BranchIfZero, IdAfterBranch,
      WhileCode, Generates;
    ghost var s := IRF.st;
    WhileUnfolds(c, loop, own, s);
    var header := IRF.NewBlock();
    var body := IRF.NewBlock();
    var end := IRF.NewBlock();
    ghost var fc := Lower(c, s.id, s.bb + 3, s.sym);
    OpenLoop(c, header, body, end, IRF);
    ghost var fs := LowerStmt(loop, IdAfterBranch(fc.val, fc.id), fc.bb, s.sym, WithBreak(s.ctx, end));
    GenerateWhileBody(loop, end, IRF);
    CloseBlock(header, end, "loop_end", IRF);
    WhileEmits(s, fc, fs);
  }

  lemma WhileUnfolds(c: Expr, loop: Stmt, own: bool, s: State)
    ensures var fc := Lower(c, s.id, s.bb + 3, s.sym);
            Emitted(While(c, loop, own), s)
            == WhileCode(s.bb, fc,
              LowerStmt(loop, IdAfterBranch(fc.val, fc.id), fc.bb, s.sym, WithBreak(s.ctx, s.bb + 2)))
  {
    hide Lower, IfCode, IfElseCode, WhileCode, ForCode, SwitchCode, ReturnCode, LowerList, LowerCases, IdAfterBranch;
    var stmt := While(c, loop, own);
    assert LowerStmt(stmt, s.id, s.bb, s.sym, s.ctx) == LowerWhile(stmt, s.id, s.bb, s.sym, s.ctx);
  }

  lemma WhileEmits(s: State, c: Frag, t: StmtFrag)
    ensures var f := WhileCode(s.bb, c, t);
            && s.allocs + f.allocs == s.allocs + c.allocs + t.allocs
            && s.listing + f.code
               == s.listing + [Jump(s.bb), Label(s.bb)] + (Tested(c) + BranchIfZero(c.val, c.id, s.bb + 2))
                  + [Label(s.bb + 1)]
                  + t.code + [Jump(s.bb), Label(s.bb + 2)]
  {
    hide Tested, BranchIfZero;
    var test := Tested(c) + BranchIfZero(c.val, c.id, s.bb + 2);
    Regroup(s.allocs, c.allocs, t.allocs);
    Concat4(s.listing, [Jump(s.bb), Label(s.bb)], test, [Label(s.bb + 1)], t.code);
    Regroup(s.listing, [Jump(s.bb), Label(s.bb)] + test + [Label(s.bb + 1)] + t.code, [Jump(s.bb), Label(s.bb + 2)]);
  }

  /** Popping what was pushed restores the target stacks. */
  lemma PushPop(ctx: Context, end: nat, increment: nat)
    ensures var b, i := WithBreak(ctx, end), WithLoop(ctx, end, increment);
            && b.(breaks := b.breaks[..|b.breaks| - 1]) == ctx
            && i.(breaks := i.breaks[..|i.breaks| - 1], increments := i.increments[..|i.increments| - 1]) == ctx
  {
    assert (ctx.breaks + [end])[..|ctx.breaks|] == ctx.breaks;
    assert (ctx.increments + [increment])[..|ctx.increments|] == ctx.increments;
  }

  /** The body of a for, with both targets pushed while it is lowered. */
  method GenerateForBody(loop: Stmt, end: nat, increment: nat, IRF: IRFactory)
    requires IRF.Valid() && Generates(loop, true, true)
    modifies IRF
    ensures IRF.Valid()
    ensures var s := old(IRF.st);
            IRF.st == AfterStmt(s, LowerStmt(loop, s.id, s.bb, s.sym, WithLoop(s.ctx, end, increment)))
    decreases loop, 6
  {
    hide IRFactory.Valid, Reserved, Resolves, StmtResolves, LowerStmt, Generates;
    ghost var ctx := IRF.st.ctx;
    IRF.PushIncrement(increment);
    IRF.PushBreak(end);
    GenerateStatement(loop, IRF);
    IRF.PopBreak();
    IRF.PopIncrement();
    PushPop(ctx, end, increment);
  }

  method GenerateFor(start: Stmt, c: Expr, step: Expr, loop: Stmt, IRF: IRFactory)
    requires IRF.Valid() && Generates(start, HasBreak(IRF.st), HasIncrement(IRF.st)) && Generates(loop, true, true)
    modifies IRF
    ensures IRF.Valid()
    ensures IRF.st == AfterStmt(old(IRF.st), Emitted(For(start, c, step, loop), old(IRF.st)))
    decreases For(start, c, step, loop), 0
  {
    hide IRFactory.Valid, Reserved, Resolves, StmtResolves, Lower, LowerStmt, Tested, BranchIfZero, IdAfterBranch,
      ForCode, Generates;
    ghost var s := IRF.st;
    ForUnfolds(start, c, step, loop, s);
    var header := IRF.NewBlock();
    var body := IRF.NewBlock();
    var increment := IRF.NewBlock();
    var end := IRF.NewBlock();
    ghost var f0 := Emitted(start, IRF.st);
    GenerateStatement(start, IRF);
    ghost var fc := Lower(c, f0.id, f0.bb, f0.sym);
    OpenLoop(c, header, body, end, IRF);
    ghost var fs := LowerStmt(loop, IdAfterBranch(fc.val, fc.id), fc.bb, f0.sym, WithLoop(s.ctx, end, increment));
    GenerateForBody(loop, end, increment, IRF);
    CloseBlock(increment, increment, "loop_increment", IRF);
    ghost var fi := Lower(step, fs.id, fs.bb, fs.sym);
    var _ := GenerateExpr(step, IRF);
    CloseBlock(header, end, "loop_end", IRF);
    ForEmits(s, f0, fc, fs, fi);
  }

  lemma ForUnfolds(start: Stmt, c: Expr, step: Expr, loop: Stmt, s: State)
    ensures var f0 := LowerStmt(start, s.id, s.bb + 4, s.sym, s.ctx);
            var fc := Lower(c, f0.id, f0.bb, f0.sym);
            var fs := LowerStmt(loop, IdAfterBranch(fc.val, fc.id), fc.bb, f0.sym, WithLoop(s.ctx, s.bb + 3, s.bb + 2));
            Emitted(For(start, c, step, loop), s) == ForCode(s.bb, f0, fc, fs, Lower(step, fs.id, fs.bb, fs.sym))
  {
    hide Lower, IfCode, IfElseCode, WhileCode, ForCode, SwitchCode, ReturnCode, LowerList, LowerCases, IdAfterBranch;
    var stmt := For(start, c, step, loop);
    assert LowerStmt(stmt, s.id, s.bb, s.sym, s.ctx) == LowerFor(stmt, s.id, s.bb, s.sym, s.ctx);
  }

  lemma ForEmits(s: State, start: StmtFrag, c: Frag, t: StmtFrag, step: Frag)
    ensures var f := ForCode(s.bb, start, c, t, step);
            && s.allocs + f.allocs == s.allocs + start.allocs + c.allocs + t.allocs + step.allocs
            && s.listing + f.code
               == s.listing + start.code + [Jump(s.bb), Label(s.bb)] + (Tested(c) + BranchIfZero(c.val, c.id, s.bb + 3))
                  + [Label(s.bb + 1)] + t.code + [Jump(s.bb + 2), Label(s.bb + 2)]
                  + step.code + [Jump(s.bb), Label(s.bb + 3)]
  {
    hide Tested, BranchIfZero;
    var test := Tested(c) + BranchIfZero(c.val, c.id, s.bb + 3);
    var front := start.code + [Jump(s.bb), Label(s.bb)] + test + [Label(s.bb + 1)] + t.code
                 + [Jump(s.bb + 2), Label(s.bb + 2)];
    Concat4(s.allocs, start.allocs, c.allocs, t.allocs, step.allocs);
    Concat3(s.listing, front, step.code, [Jump(s.bb), Label(s.bb + 3)]);
    Concat4(s.listing, start.code, [Jump(s.bb), Label(s.bb)], test, [Label(s.bb + 1)]);
    Concat3(s.listing, start.code + [Jump(s.bb), Label(s.bb)] + test + [Label(s.bb + 1)], t.code,
      [Jump(s.bb + 2), Label(s.bb + 2)]);
  }

  // ---------------------------------------------------------------------
  // Switch
  // ---------------------------------------------------------------------

  /** The blocks of the case bodies are numbered from k on. */
  ghost predicate Numbered(bodies: seq<nat>, k: nat) {
    forall i :: 0 <= i < |bodies| ==> bodies[i] == k + i
  }

  /** One block for every case that has statements. */
  method MakeBodies(cases: Cases, IRF: IRFactory) returns (bodies: seq<nat>)
    requires IRF.Valid()
    modifies IRF
    ensures IRF.Valid() && IRF.st == old(IRF.st).(bb := old(IRF.st).bb + Bodies(cases))
    ensures |bodies| == Bodies(cases) && Numbered(bodies, old(IRF.st).bb)
  {
    hide IRFactory.Valid, Reserved, Resolves, StmtResolves;
    bodies := [];
    var rest := cases;
    while rest.Case?
      invariant IRF.Valid() && IRF.st == old(IRF.st).(bb := old(IRF.st).bb + |bodies|)
      invariant |bodies| + Bodies(rest) == Bodies(cases) && Numbered(bodies, old(IRF.st).bb)
      decreases rest
    {
      if !rest.stmts.Nil? {
        var body := IRF.NewBlock();
        bodies := bodies + [body];
      }
      rest := rest.rest;
    }
  }

  /** A compare and a branch for each case; a case without statements goes to
      the block of the next case that has some. */
  method EmitTests(cases: Cases, val: Operand, bodies: seq<nat>, ghost k: nat, IRF: IRFactory)
    requires IRF.Valid() && LastHasBody(cases) && |bodies| == Bodies(cases) && Numbered(bodies, k)
    modifies IRF
    ensures IRF.Valid()
    ensures var s := old(IRF.st);
            IRF.st == s.(listing := s.listing + CaseTests(cases, val, s.id, k), id := s.id + TestCount(cases))
  {
    hide IRFactory.Valid, Reserved, Resolves, StmtResolves;
    ghost var s := IRF.st;
    var rest, caseIdx := cases, 0;
    while rest.Case?
      invariant IRF.Valid() && IRF.st == s.(listing := IRF.st.listing, id := IRF.st.id)
      invariant LastHasBody(rest) && caseIdx + Bodies(rest) == |bodies|
      invariant IRF.st.id + TestCount(rest) == s.id + TestCount(cases)
      invariant IRF.st.listing + CaseTests(rest, val, IRF.st.id, k + caseIdx)
                == s.listing + CaseTests(cases, val, s.id, k)
      decreases rest
    {
      HasBody(rest);
      ghost var before := IRF.st;
      var res := IRF.CreateCMP(EQ, val, Const(rest.k));
      IRF.Insert(Branch(res, bodies[caseIdx]));
      ghost var next := if rest.stmts.Nil? then k + caseIdx else k + caseIdx + 1;
      TestsShift(before.listing, Cmp(res.id, EQ, val, Const(rest.k)), Branch(res, k + caseIdx),
                 CaseTests(rest.rest, val, res.id + 1, next));
      if !rest.stmts.Nil? {
        caseIdx := caseIdx + 1;
      }
      rest := rest.rest;
    }
    Nothing(IRF.st.listing);
  }

  lemma TestsShift<T>(l: seq<T>, a: T, b: T, more: seq<T>)
    ensures l + ([a, b] + more) == l + [a] + [b] + more
  {
    Regroup(l, [a, b], more);
    Insert2(l, a, b);
  }

  /** The statements of a list, one after the other. */
  method GenerateStatements(ss: Stmts, IRF: IRFactory)
    requires IRF.Valid() && ListGenerates(ss, HasBreak(IRF.st), HasIncrement(IRF.st))
    modifies IRF
    ensures IRF.Valid()
    ensures IRF.st == AfterStmt(old(IRF.st), ListEmitted(ss, old(IRF.st)))
    decreases ss, 2
  {
    hide IRFactory.Valid, Reserved, Resolves, StmtResolves, LowerStmt;
    ghost var s := IRF.st;
    var rest := ss;
    ListSame(s, ss, IRF.st, rest);
    while rest.Cons?
      invariant IRF.Valid() && IRF.st.ctx == s.ctx && ListGenerates(rest, HasBreak(s), HasIncrement(s))
      invariant rest == ss || rest < ss
      invariant AfterStmt(IRF.st, ListEmitted(rest, IRF.st)) == AfterStmt(s, ListEmitted(ss, s))
      decreases rest
    {
      ListStep(rest, IRF.st);
      GenerateStatement(rest.head, IRF);
      rest := rest.tail;
    }
    ListSame(s, ss, IRF.st, rest);
  }

  lemma ListSame(s: State, ss: Stmts, s1: State, rest: Stmts)
    ensures rest.Nil? ==> AfterStmt(s1, ListEmitted(rest, s1)) == s1
  {
    Nothing(s1.listing);
    Nothing(s1.allocs);
  }

  lemma ListStep(ss: Stmts, s: State)
    requires ss.Cons?
    ensures var s1 := AfterStmt(s, Emitted(ss.head, s));
            AfterStmt(s, ListEmitted(ss, s)) == AfterStmt(s1, ListEmitted(ss.tail, s1))
  {
    hide LowerStmt;
    var f := Emitted(ss.head, s);
    AfterTwice(s, f, ListEmitted(ss.tail, AfterStmt(s, f)));
  }

  function CasesEmitted(cases: Cases, k: nat, default: nat, s: State): StmtFrag {
    LowerCases(cases, k, default, s.id, s.bb, s.sym, s.ctx)
  }

  /** Every body behind its own label, in order, the default last. */
  method GenerateBodies(cases: Cases, ghost k: nat, bodies: seq<nat>, default: nat, IRF: IRFactory)
    requires IRF.Valid() && CasesGenerate(cases, HasBreak(IRF.st), HasIncrement(IRF.st))
    requires |bodies| == Bodies(cases) && Numbered(bodies, k)
    modifies IRF
    ensures IRF.Valid()
    ensures IRF.st == AfterStmt(old(IRF.st), CasesEmitted(cases, k, default, old(IRF.st)))
    decreases cases, 3
  {
    hide IRFactory.Valid, Reserved, Resolves, StmtResolves, LowerStmt, LowerList, LowerCases;
    ghost var s := IRF.st;
    var rest, left := cases, bodies;
    ghost var next := k;
    while rest.Case?
      invariant IRF.Valid() && IRF.st.ctx == s.ctx && CasesGenerate(rest, HasBreak(s), HasIncrement(s))
      invariant rest == cases || rest < cases
      invariant |left| == Bodies(rest) && Numbered(left, next)
      invariant AfterStmt(IRF.st, CasesEmitted(rest, next, default, IRF.st))
                == AfterStmt(s, CasesEmitted(cases, k, default, s))
      decreases rest
    {
      if rest.stmts.Nil? {
        EmptyStep(rest, next, default, IRF.st);
      } else {
        BodyStep(rest, next, default, IRF.st);
        IRF.InsertBB(left[0], "switch_case");
        GenerateStatements(rest.stmts, IRF);
        left := left[1..];
        next := next + 1;
      }
      rest := rest.rest;
    }
    DefaultStep(rest, next, default, IRF.st);
    IRF.InsertBB(default, "switch_default");
    GenerateStatements(rest.stmts, IRF);
  }

  lemma DefaultStep(cases: Cases, k: nat, default: nat, s: State)
    requires cases.Default?
    ensures var s1 := s.(listing := s.listing + [Label(default)]);
            AfterStmt(s, CasesEmitted(cases, k, default, s)) == AfterStmt(s1, ListEmitted(cases.stmts, s1))
  {
    hide LowerList;
    Regroup(s.listing, [Label(default)], LowerList(cases.stmts, s.id, s.bb, s.sym, s.ctx).code);
  }

  lemma EmptyStep(cases: Cases, k: nat, default: nat, s: State)
    requires cases.Case? && cases.stmts.Nil?
    ensures CasesEmitted(cases, k, default, s) == CasesEmitted(cases.rest, k, default, s)
  {
  }

  lemma BodyStep(cases: Cases, k: nat, default: nat, s: State)
    requires cases.Case? && cases.stmts.Cons?
    ensures var s1 := s.(listing := s.listing + [Label(k)]);
            var s2 := AfterStmt(s1, ListEmitted(cases.stmts, s1));
            AfterStmt(s, CasesEmitted(cases, k, default, s))
              == AfterStmt(s2, CasesEmitted(cases.rest, k + 1, default, s2))
  {
    hide LowerList;
    var g := LowerList(cases.stmts, s.id, s.bb, s.sym, s.ctx);
    var h := LowerCases(cases.rest, k + 1, default, g.id, g.bb, g.sym, s.ctx);
    Concat3(s.listing, [Label(k)], g.code, h.code);
    Regroup(s.allocs, g.allocs, h.allocs);
  }

  /** The value, the tests, and the jump to the default; breaks now go to end. */
  method OpenSwitch(c: Expr, cases: Cases, end: nat, default: nat, IRF: IRFactory) returns (bodies: seq<nat>)
    requires IRF.Valid() && LastHasBody(cases)
    modifies IRF
    ensures IRF.Valid()
    ensures var s := old(IRF.st);
            var f := Lower(c, s.id, s.bb, s.sym);
            && |bodies| == Bodies(cases) && Numbered(bodies, f.bb)
            && IRF.st == s.(listing := s.listing + f.code + CaseTests(cases, f.val, f.id, f.bb) + [Jump(default)],
                            allocs := s.allocs + f.allocs, id := f.id + TestCount(cases), bb := f.bb + Bodies(cases),
                            ctx := WithBreak(s.ctx, end))
  {
    hide IRFactory.Valid, Reserved, Resolves, StmtResolves, Lower, CaseTests, TestCount, Bodies;
    ghost var s := IRF.st;
    ghost var f := Lower(c, s.id, s.bb, s.sym);
    var val := GenerateExpr(c, IRF);
    bodies := MakeBodies(cases, IRF);
    IRF.PushBreak(end);
    EmitTests(cases, val, bodies, f.bb, IRF);
    IRF.Insert(Jump(default));
  }

  /** The bodies, and the end; breaks go where they went before. */
  method CloseSwitch(cases: Cases, ghost k: nat, bodies: seq<nat>, default: nat, end: nat, ghost ctx: Context,
                     IRF: IRFactory)
    requires IRF.Valid() && CasesGenerate(cases, true, HasIncrement(IRF.st)) && IRF.st.ctx == WithBreak(ctx, end)
    requires |bodies| == Bodies(cases) && Numbered(bodies, k)
    modifies IRF
    ensures IRF.Valid()
    ensures var s := old(IRF.st);
            var f := CasesEmitted(cases, k, default, s);
            IRF.st == AfterStmt(s, f).(listing := s.listing + f.code + [Label(end)], ctx := ctx)
    decreases cases, 4
  {
    hide IRFactory.Valid, Reserved, Resolves, StmtResolves, LowerCases, CasesGenerate, Bodies, Numbered;
    GenerateBodies(cases, k, bodies, default, IRF);
    IRF.PopBreak();
    IRF.InsertBB(end, "switch_end");
    PushPop(ctx, end, 0);
  }

  method GenerateSwitch(c: Expr, cases: Cases, IRF: IRFactory)
    requires IRF.Valid() && LastHasBody(cases) && CasesGenerate(cases, true, HasIncrement(IRF.st))
    modifies IRF
    ensures IRF.Valid()
    ensures IRF.st == AfterStmt(old(IRF.st), Emitted(Switch(c, cases), old(IRF.st)))
    decreases Switch(c, cases), 4
  {
    hide IRFactory.Valid, Reserved, Resolves, StmtResolves, Lower, LowerStmt, LowerCases, SwitchCode, CasesGenerate,
      CaseTests, TestCount, Bodies,
      Numbered;
    ghost var s := IRF.st;
    SwitchUnfolds(c, cases, s);
    var end := IRF.NewBlock();
    var default := IRF.NewBlock();
    ghost var fc := Lower(c, s.id, s.bb + 2, s.sym);
    var bodies := OpenSwitch(c, cases, end, default, IRF);
    ghost var fb := CasesEmitted(cases, fc.bb, default, IRF.st);
    CloseSwitch(cases, fc.bb, bodies, default, end, s.ctx, IRF);
    SwitchEmits(s, fc, cases, fb);
  }

  lemma SwitchUnfolds(c: Expr, cases: Cases, s: State)
    ensures var fc := Lower(c, s.id, s.bb + 2, s.sym);
            Emitted(Switch(c, cases), s)
            == SwitchCode(s.bb, fc, cases,
                          LowerCases(cases, fc.bb, s.bb + 1, fc.id + TestCount(cases), fc.bb + Bodies(cases), s.sym,
                                     WithBreak(s.ctx, s.bb)))
  {
    hide Lower, IfCode, IfElseCode, WhileCode, ForCode, SwitchCode, ReturnCode, LowerList, LowerCases, IdAfterBranch;
    var stmt := Switch(c, cases);
    assert LowerStmt(stmt, s.id, s.bb, s.sym, s.ctx) == LowerSwitch(stmt, s.id, s.bb, s.sym, s.ctx);
  }

  lemma SwitchEmits(s: State, c: Frag, cases: Cases, bodies: StmtFrag)
    ensures var f := SwitchCode(s.bb, c, cases, bodies);
            && s.allocs + f.allocs == s.allocs + c.allocs + bodies.allocs
            && s.listing + f.code
               == s.listing + c.code + CaseTests(cases, c.val, c.id, c.bb) + [Jump(s.bb + 1)] + bodies.code
                  + [Label(s.bb)]
  {
    hide CaseTests;
    var tests := CaseTests(cases, c.val, c.id, c.bb);
    Regroup(s.allocs, c.allocs, bodies.allocs);
    Concat4(s.listing, c.code, tests, [Jump(s.bb + 1)], bodies.code);
    Regroup(s.listing, c.code + tests + [Jump(s.bb + 1)] + bodies.code, [Label(s.bb)]);
  }

  // ---------------------------------------------------------------------
  // All statements
  // ---------------------------------------------------------------------

  method GenerateStatement(s: Stmt, IRF: IRFactory)
    requires IRF.Valid() && Generates(s, HasBreak(IRF.st), HasIncrement(IRF.st))
    modifies IRF
    ensures IRF.Valid()
    ensures IRF.st == AfterStmt(old(IRF.st), Emitted(s, old(IRF.st)))
    ensures Reserved(old(IRF.st)) && StmtResolves(s, old(IRF.st).sym.Keys) ==> Reserved(IRF.st)
    decreases s, 5
  {
    StatementReserves(s, IRF.st);
    hide IRFactory.Valid, Reserved, Resolves, StmtResolves, IfCode, IfElseCode, WhileCode, ForCode, SwitchCode,
      ReturnCode, LowerList, LowerCases, Lower,
      Reserved, StmtResolves;
    match s {
      case ExprStmt(e) => var _ := GenerateExpr(e, IRF);
      case Decl(x, init) => GenerateDecl(x, init, IRF);
      case Compound(ss) => GenerateStatements(ss, IRF);
      case If(c, thn) => GenerateIf(c, thn, IRF);
      case IfElse(c, thn, els) => GenerateIfElse(c, thn, els, IRF);
      case While(c, loop, own) => GenerateWhile(c, loop, own, IRF);
      case For(start, c, step, loop) => GenerateFor(start, c, step, loop, IRF);
      case Switch(c, cases) => GenerateSwitch(c, cases, IRF);
      case Break =>
        Nothing(IRF.st.allocs);
        var ctx := IRF.GetContext();
        IRF.Insert(Jump(ctx.breaks[|ctx.breaks| - 1]));
      case Continue =>
        Nothing(IRF.st.allocs);
        var ctx := IRF.GetContext();
        IRF.Insert(Jump(ctx.increments[|ctx.increments| - 1]));
      case Return(ret) => GenerateReturn(ret, IRF);
    }
  }

  // ---------------------------------------------------------------------
  // Functions
  // ---------------------------------------------------------------------

  function ParamsEmitted(params: seq<string>, k: nat, s: State): StmtFrag
    requires k <= |params|
  {
    LowerParams(params, k, s.id, s.sym)
  }

  lemma ParamStep(params: seq<string>, k: nat, s: State)
    requires k < |params| && s.bb == 1
    ensures var s1 := s.(listing := s.listing + [Store(Param(k), s.id)], allocs := s.allocs + [s.id],
                         id := s.id + 2, sym := s.sym[params[k] := s.id]);
            AfterStmt(s, ParamsEmitted(params, k, s)) == AfterStmt(s1, ParamsEmitted(params, k + 1, s1))
  {
    var g := LowerParams(params, k + 1, s.id + 2, s.sym[params[k] := s.id]);
    Regroup(s.listing, [Store(Param(k), s.id)], g.code);
    Regroup(s.allocs, [s.id], g.allocs);
  }

  /** Each parameter gets a slot that its value is stored to. */
  method GenerateParameters(params: seq<string>, IRF: IRFactory)
    requires IRF.Valid() && IRF.st.bb == 1
    modifies IRF
    ensures IRF.Valid() && IRF.st == AfterStmt(old(IRF.st), ParamsEmitted(params, 0, old(IRF.st)))
  {
    hide IRFactory.Valid, Reserved, Resolves, StmtResolves;
    ghost var s := IRF.st;
    for k := 0 to |params|
      invariant IRF.Valid() && IRF.st.bb == 1
      invariant AfterStmt(IRF.st, ParamsEmitted(params, k, IRF.st)) == AfterStmt(s, ParamsEmitted(params, 0, s))
    {
      ParamStep(params, k, IRF.st);
      var slot := IRF.CreateSA();
      IRF.AddToSymbolTable(params[k], slot);
      IRF.Insert(Store(Param(k), slot));
      var _ := IRF.NextID();
    }
    Nothing(IRF.st.listing);
    Nothing(IRF.st.allocs);
  }

  /** A whole function: the blocks of the finished factory are the listing
      that LowerFunction describes. */
  method GenerateFunction(name: string, f: Function) returns (IRF: IRFactory)
    requires Generates(f.body, false, false)
    ensures fresh(IRF) && IRF.Valid() && IRF.name == name
    ensures IRF.st.listing == LowerFunction(f) && IRF.st.bb == BlockCount(f)
    ensures IRF.st.ctx.breaks == [] && IRF.st.ctx.increments == []
    ensures IRF.st.allocs == FunctionAllocs(f)
    ensures FunctionResolves(f) ==>
              forall i, slot :: i in IRF.st.listing && Names(i, slot) ==> slot in IRF.st.allocs
  {
    hide IRFactory.Valid, Reserved, Resolves, StmtResolves, LowerStmt, Generates, FunctionResolves, Names;
    if FunctionResolves(f) { FunctionCovers(f); }
    IRF := new IRFactory(name, f.isVoid);
    GenerateParameters(f.params, IRF);
    ghost var p := LowerParams(f.params, 0, 0, map[]);
    if Returns(f.body) > 1 && !f.isVoid {
      var slot := IRF.CreateSA();
      IRF.SetReturnValue(slot);
    }
    GenerateStatement(f.body, IRF);
    ghost var b := LowerBody(f);
    assert IRF.st.listing == [Label(0)] + p.code + b.code;
    assert IRF.st.allocs == FunctionAllocs(f);
    if Returns(f.body) > 1 && !f.isVoid {
      FinishMerged(name, f, IRF);
    } else if Returns(f.body) == 0 && f.isVoid {
      IRF.Insert(Ret(None));
    } else {
      Nothing(IRF.st.listing);
    }
  }

  method FinishMerged(name: string, f: Function, IRF: IRFactory)
    requires IRF.Valid() && Merges(f) && IRF.name == name && IRF.st.ctx.merge == Some(MergeSlot(f))
    requires var b := LowerBody(f);
             IRF.st.listing == [Label(0)] + LowerParams(f.params, 0, 0, map[]).code + b.code && IRF.st.id == b.id &&
               IRF.st.bb == b.bb
    modifies IRF
    ensures IRF.Valid() && IRF.st.ctx == old(IRF.st).ctx && IRF.st.allocs == old(IRF.st).allocs
    ensures IRF.st.listing == LowerFunction(f) && IRF.st.bb == BlockCount(f)
  {
    hide IRFactory.Valid, Reserved, Resolves, StmtResolves, LowerBody;
    ghost var before := IRF.st.listing;
    var ret := IRF.NewBlock();
    IRF.InsertBB(ret, name + "_end");
    var ctx := IRF.GetContext();
    var val := IRF.CreateLD(ctx.merge.value);
    IRF.Insert(Ret(Some(val)));
    Insert3(before, Label(ret), Load(val.id, ctx.merge.value), Ret(Some(val)));
    IRF.PatchJumps(ret);
  }

  /** Every jump and branch of a finished function names a block that exists,
      and no other block has its name: resolving targets by name is right. */
  lemma TargetsResolve(IRF: IRFactory, f: Function, p: nat) returns (k: nat)
    requires IRF.Valid() && IRF.st.listing == LowerFunction(f)
    requires Supported(f.body, ParamScope(f)) && !Breaks(f.body) && !Continues(f.body)
    requires p < |LowerFunction(f)| && (LowerFunction(f)[p].Jump? || LowerFunction(f)[p].Branch?)
    ensures k < |IRF.blocks| && IRF.blocks[k].bb == LowerFunction(f)[p].bb
    ensures forall i :: 0 <= i < |IRF.blocks| && IRF.blocks[i].name == IRF.blocks[k].name ==> i == k
  {
    hide LowerFunction, Count, Supported;
    FunctionWellFormed(f, p);
    k := IRF.BlockOf(LowerFunction(f)[p].bb);
  }
}
