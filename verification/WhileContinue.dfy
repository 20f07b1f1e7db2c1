/** What lowering makes of `continue` in a `while`.  A while pushes no increment
    target, so its code is that of a while that passes continues on. */
module WhileContinue {
  import opened Words
  import opened Source
  import opened IR
  import opened Lowering
  import opened ExprCorrectness
  import opened StmtCorrectness
  import opened StmtRuns
  import opened Targets
  import opened Functions
  import StmtCodegen

  // ---------------------------------------------------------------------
  // Statements as lowering reads them
  // ---------------------------------------------------------------------

  /** No while keeps its continues. */
  function AsLowered(s: Stmt): Stmt {
    match s
    case Compound(ss) => Compound(ListAsLowered(ss))
    case If(c, thn) => If(c, AsLowered(thn))
    case IfElse(c, thn, els) => IfElse(c, AsLowered(thn), AsLowered(els))
    case While(c, loop, _) => While(c, AsLowered(loop), false)
    case For(start, c, step, loop) => For(AsLowered(start), c, step, AsLowered(loop))
    case Switch(c, cases) => Switch(c, CasesAsLowered(cases))
    case _ => s
  }

  function ListAsLowered(ss: Stmts): Stmts {
    match ss
    case Nil => Nil
    case Cons(s, rest) => Cons(AsLowered(s), ListAsLowered(rest))
  }

  function CasesAsLowered(cases: Cases): Cases {
    match cases
    case Default(ss) => Default(ListAsLowered(ss))
    case Case(k, ss, rest) => Case(k, ListAsLowered(ss), CasesAsLowered(rest))
  }

  /** The code is the same. */
  lemma {:induction false} SameCode(s: Stmt, id: nat, bb: nat, sym: SymbolTable, ctx: Context)
    ensures LowerStmt(AsLowered(s), id, bb, sym, ctx) == LowerStmt(s, id, bb, sym, ctx)
    decreases s
  {
    hide Lower, LowerDecl, LowerReturn, IfCode, IfElseCode, WhileCode, ForCode, SwitchCode, IdAfterBranch, CaseTests;
    match s
    case Compound(ss) => SameListCode(ss, id, bb, sym, ctx);
    case If(c, thn) =>
      var fc := Lower(c, id, bb + 1, sym);
      SameCode(thn, IdAfterBranch(fc.val, fc.id), fc.bb + 1, sym, ctx);
    case IfElse(c, thn, els) =>
      var fc := Lower(c, id, bb + 2, sym);
      var ft := LowerStmt(thn, IdAfterBranch(fc.val, fc.id), fc.bb + 1, sym, ctx);
      SameCode(thn, IdAfterBranch(fc.val, fc.id), fc.bb + 1, sym, ctx);
      SameCode(els, ft.id, ft.bb, ft.sym, ctx);
    case While(c, loop, _) =>
      var fc := Lower(c, id, bb + 3, sym);
      SameCode(loop, IdAfterBranch(fc.val, fc.id), fc.bb, sym, WithBreak(ctx, bb + 2));
    case For(start, c, step, loop) =>
      var f0 := LowerStmt(start, id, bb + 4, sym, ctx);
      var fc := Lower(c, f0.id, f0.bb, f0.sym);
      SameCode(start, id, bb + 4, sym, ctx);
      SameCode(loop, IdAfterBranch(fc.val, fc.id), fc.bb, f0.sym, WithLoop(ctx, bb + 3, bb + 2));
    case Switch(c, cases) =>
      var fc := Lower(c, id, bb + 2, sym);
      SameTests(cases, fc.val, fc.id, fc.bb);
      SameCasesCode(cases, fc.bb, bb + 1, fc.id + TestCount(cases), fc.bb + Bodies(cases), sym, WithBreak(ctx, bb));
      SameSwitch(bb, fc, cases,
        LowerCases(cases, fc.bb, bb + 1, fc.id + TestCount(cases), fc.bb + Bodies(cases), sym, WithBreak(ctx, bb)));
    case _ =>
  }

  lemma {:induction false} SameListCode(ss: Stmts, id: nat, bb: nat, sym: SymbolTable, ctx: Context)
    ensures LowerList(ListAsLowered(ss), id, bb, sym, ctx) == LowerList(ss, id, bb, sym, ctx)
    decreases ss
  {
    hide LowerStmt;
    match ss
    case Nil =>
    case Cons(s, rest) =>
      var g := LowerStmt(s, id, bb, sym, ctx);
      SameCode(s, id, bb, sym, ctx);
      SameListCode(rest, g.id, g.bb, g.sym, ctx);
  }

  lemma {:induction false} SameCasesCode(cases: Cases, k: nat, default: nat, id: nat, bb: nat, sym: SymbolTable,
                                         ctx: Context)
    ensures LowerCases(CasesAsLowered(cases), k, default, id, bb, sym, ctx)
            == LowerCases(cases, k, default, id, bb, sym, ctx)
    decreases cases
  {
    hide LowerList;
    match cases
    case Default(ss) => SameListCode(ss, id, bb, sym, ctx);
    case Case(_, ss, rest) =>
      if ss.Nil? {
        SameCasesCode(rest, k, default, id, bb, sym, ctx);
      } else {
        var g := LowerList(ss, id, bb, sym, ctx);
        SameListCode(ss, id, bb, sym, ctx);
        SameCasesCode(rest, k + 1, default, g.id, g.bb, g.sym, ctx);
      }
  }

  lemma {:induction false} SameTests(cases: Cases, val: Operand, id: nat, k: nat)
    ensures TestCount(CasesAsLowered(cases)) == TestCount(cases) && Bodies(CasesAsLowered(cases)) == Bodies(cases)
    ensures CaseTests(CasesAsLowered(cases), val, id, k) == CaseTests(cases, val, id, k)
  {
    match cases
    case Default(_) =>
    case Case(_, ss, rest) => SameTests(rest, val, id + 1, if ss.Nil? then k else k + 1);
  }

  lemma SameSwitch(bb: nat, c: Frag, cases: Cases, bodies: StmtFrag)
    ensures SwitchCode(bb, c, CasesAsLowered(cases), bodies) == SwitchCode(bb, c, cases, bodies)
  {
    SameTests(cases, c.val, c.id, c.bb);
  }

  /** The code of a statement does what the statement does as lowering reads
      it, with continues anywhere in its whiles. */
  lemma CodeRunsAsLowered(s: Stmt, id: nat, bb: nat, sym: SymbolTable, ctx: Context, scope: set<string>,
                          fuel: nat, env: Env, w: World, c: Config) returns (c': Config)
    requires Supported(AsLowered(s), scope) && !Exec(AsLowered(s), env, fuel).Wrong?
    requires Go(w, c, LowerStmt(s, id, bb, sym, ctx).code, env, scope, sym, id, ctx)
    ensures var f := LowerStmt(s, id, bb, sym, ctx);
            Follows(w, c, c', c.pc + |f.code|, Exec(AsLowered(s), env, fuel), fuel, env, sym, f.sym, ctx)
  {
    hide LowerStmt, Exec, Supported, AsLowered, Follows, Go;
    SameCode(s, id, bb, sym, ctx);
    c' := StatementRuns(AsLowered(s), id, bb, sym, ctx, scope, fuel, env, w, c);
  }

  // ---------------------------------------------------------------------
  // Empty target stacks
  // ---------------------------------------------------------------------

  /** Every last case has statements, and a for starts with an expression or a
      declaration. */
  predicate CasesHaveBodies(s: Stmt) {
    match s
    case Compound(ss) => ListHasBodies(ss)
    case If(_, thn) => CasesHaveBodies(thn)
    case IfElse(_, thn, els) => CasesHaveBodies(thn) && CasesHaveBodies(els)
    case While(_, loop, _) => CasesHaveBodies(loop)
    case For(start, _, _, loop) => (start.ExprStmt? || start.Decl?) && CasesHaveBodies(loop)
    case Switch(_, cases) => LastHasBody(cases) && AllHaveBodies(cases)
    case _ => true
  }

  predicate ListHasBodies(ss: Stmts) {
    match ss
    case Nil => true
    case Cons(s, rest) => CasesHaveBodies(s) && ListHasBodies(rest)
  }

  predicate AllHaveBodies(cases: Cases) {
    match cases
    case Default(ss) => ListHasBodies(ss)
    case Case(_, ss, rest) => ListHasBodies(ss) && AllHaveBodies(rest)
  }

  /** The generator reads an empty target stack exactly for a break outside of
      loops and switches, and for a continue that no for is around, be it in a
      while or not. */
  lemma {:induction false} GeneratesExactly(s: Stmt, breaks: bool, continues: bool)
    requires CasesHaveBodies(s)
    ensures StmtCodegen.Generates(s, breaks, continues)
            <==> (Breaks(s) ==> breaks) && (Continues(AsLowered(s)) ==> continues)
  {
    match s
    case Compound(ss) => ListGeneratesExactly(ss, breaks, continues);
    case If(_, thn) => GeneratesExactly(thn, breaks, continues);
    case IfElse(_, thn, els) =>
      GeneratesExactly(thn, breaks, continues);
      GeneratesExactly(els, breaks, continues);
    case While(_, loop, _) => GeneratesExactly(loop, true, continues);
    case For(_, _, _, loop) => GeneratesExactly(loop, true, true);
    case Switch(_, cases) => CasesGenerateExactly(cases, true, continues);
    case _ =>
  }

  lemma {:induction false} ListGeneratesExactly(ss: Stmts, breaks: bool, continues: bool)
    requires ListHasBodies(ss)
    ensures StmtCodegen.ListGenerates(ss, breaks, continues)
            <==> (ListBreaks(ss) ==> breaks) && (ListContinues(ListAsLowered(ss)) ==> continues)
  {
    match ss
    case Nil =>
    case Cons(s, rest) =>
      GeneratesExactly(s, breaks, continues);
      ListGeneratesExactly(rest, breaks, continues);
  }

  lemma {:induction false} CasesGenerateExactly(cases: Cases, breaks: bool, continues: bool)
    requires AllHaveBodies(cases) && breaks
    ensures StmtCodegen.CasesGenerate(cases, breaks, continues)
            <==> (CasesContinue(CasesAsLowered(cases)) ==> continues)
  {
    match cases
    case Default(ss) => ListGeneratesExactly(ss, breaks, continues);
    case Case(_, ss, rest) =>
      ListGeneratesExactly(ss, breaks, continues);
      CasesGenerateExactly(rest, breaks, continues);
  }

  /** int f() { while (1) { continue; } } reads the empty increment stack. */
  lemma LoneContinueReadsNothing()
    ensures !StmtCodegen.Generates(While(Literal(1), Continue, true), false, false)
  {
    GeneratesExactly(While(Literal(1), Continue, true), false, false);
  }

  // ---------------------------------------------------------------------
  // One while
  // ---------------------------------------------------------------------

  /** No iteration that the source executes ends by continue. */
  predicate NoneContinues(c: Expr, loop: Stmt, env: Env, fuel: nat)
    decreases fuel
  {
    Eval(c, env).Value? && Eval(c, env).v != 0 ==>
      var r := Exec(loop, Eval(c, env).env, fuel);
      r.Done? ==> !r.o.Continued? && (r.o.Normal? && fuel > 0 ==> NoneContinues(c, loop, r.env, fuel - 1))
  }

  /** The variables when the first iteration that does so ends. */
  function FirstContinue(c: Expr, loop: Stmt, env: Env, fuel: nat): Env
    requires !NoneContinues(c, loop, env, fuel)
    decreases fuel
  {
    var r := Exec(loop, Eval(c, env).env, fuel);
    if r.o.Continued? then r.env else FirstContinue(c, loop, r.env, fuel - 1)
  }

  lemma {:induction false} PassesOnExactly(c: Expr, loop: Stmt, env: Env, fuel: nat)
    ensures NoneContinues(c, loop, env, fuel) ==>
              Exec(While(c, loop, false), env, fuel) == Exec(While(c, loop, true), env, fuel)
    ensures !NoneContinues(c, loop, env, fuel) ==>
              Exec(While(c, loop, false), env, fuel) == Done(Continued, FirstContinue(c, loop, env, fuel))
    decreases fuel
  {
    if Eval(c, env).Value? && Eval(c, env).v != 0 {
      var r := Exec(loop, Eval(c, env).env, fuel);
      if r.Done? && r.o.Normal? && fuel > 0 {
        PassesOnExactly(c, loop, r.env, fuel - 1);
      }
    }
  }

  /** The code of a while behaves as its source exactly if no executed
      iteration ends by continue.  When one does, the machine is at a jump to the
      increment of the for around it, with the variables as they are then, while
      the source goes on. */
  lemma WhileContinueExactly(c: Expr, loop: Stmt, id: nat, bb: nat, sym: SymbolTable, ctx: Context, scope: set<string>,
                             fuel: nat, env: Env, w: World, c0: Config) returns (c': Config)
    requires Safe(c) && Testable(c) && !loop.Decl? && Supported(loop, scope) && ctx.increments != []
    requires !Exec(While(c, loop, true), env, fuel).Wrong?
    requires Go(w, c0, LowerStmt(While(c, loop, true), id, bb, sym, ctx).code, env, scope, sym, id, ctx)
    ensures var f := LowerStmt(While(c, loop, true), id, bb, sym, ctx);
            var r := Exec(While(c, loop, true), env, fuel);
            if NoneContinues(c, loop, env, fuel) then
              Follows(w, c0, c', c0.pc + |f.code|, r, fuel, env, sym, f.sym, ctx)
            else
              && (r.Done? ==> !r.o.Continued?)
              && Reaches(w, c0, c') && At(w.code, c'.pc, [Jump(Last(ctx.increments))])
              && Agrees(Seen(FirstContinue(c, loop, env, fuel), env.Keys), sym, c'.slots)
  {
    hide Reaches, Agrees, Supported, Exec, Go;
    var s, t := While(c, loop, true), While(c, loop, false);
    PassesOnExactly(c, loop, env, fuel);
    SameWhileCode(c, loop, id, bb, sym, ctx);
    FitsBoth(c, loop, scope);
    OwnNeverContinues(c, loop, env, fuel);
    c' := StatementRuns(t, id, bb, sym, ctx, scope, fuel, env, w, c0);
  }

  lemma SameWhileCode(c: Expr, loop: Stmt, id: nat, bb: nat, sym: SymbolTable, ctx: Context)
    ensures LowerStmt(While(c, loop, true), id, bb, sym, ctx) == LowerStmt(While(c, loop, false), id, bb, sym, ctx)
  {
    hide Lower, WhileCode;
  }

  lemma FitsBoth(c: Expr, loop: Stmt, scope: set<string>)
    requires Safe(c) && Testable(c) && !loop.Decl? && Supported(loop, scope)
    ensures Supported(While(c, loop, false), scope)
  {
  }

  /** A while of the source is not left by continue. */
  lemma {:induction false} OwnNeverContinues(c: Expr, loop: Stmt, env: Env, fuel: nat)
    ensures var r := Exec(While(c, loop, true), env, fuel); r.Done? ==> !r.o.Continued?
    decreases fuel
  {
    if Eval(c, env).Value? {
      var r := Exec(loop, Eval(c, env).env, fuel);
      if r.Done? && fuel > 0 { OwnNeverContinues(c, loop, r.env, fuel - 1); }
    }
  }

  // ---------------------------------------------------------------------
  // A wrong result
  // ---------------------------------------------------------------------

  const N := Var("n")
  const BODY: Stmt := Compound(Cons(ExprStmt(Assign("n", Literal(1))), Cons(Continue, Nil)))

  function Inner(own: bool): Stmt { While(Compare(EQ, N, Literal(0)), BODY, own) }

  function Outer(own: bool): Stmt {
    For(Decl("i", Some(Literal(0))), Compare(LT, Var("i"), Literal(1)), Post("i", true),
        Compound(Cons(Inner(own), Cons(ExprStmt(Assign("n", Literal(5))), Nil))))
  }

  /** int f() {
        int n = 0;
        for (int i = 0; i < 1; i++) { while (n == 0) { n = 1; continue; } n = 5; }
        return n;
      } */
  function Continuing(own: bool): Function {
    Function([], false, Compound(Cons(Decl("n", Some(Literal(0))), Cons(Outer(own), Cons(Return(Some(N)), Nil)))))
  }

  lemma Small(n: int)
    requires 0 <= n < TWO_TO_THE_31
    ensures Wrap(n) == n
  {
  }

  function Vars(n: int, i: int): Env { map["n" := Some(n), "i" := Some(i)] }

  lemma BodyExec(fuel: nat)
    ensures Exec(BODY, Vars(0, 0), fuel) == Done(Continued, Vars(1, 0))
  {
    var env := Vars(0, 0);
    var set1 := ExprStmt(Assign("n", Literal(1)));
    Small(1);
    assert env["n" := Some(1)] == Vars(1, 0);
    assert Exec(set1, env, fuel) == Done(Normal, Vars(1, 0));
    assert Exec(Continue, Vars(1, 0), fuel) == Done(Continued, Vars(1, 0));
    assert ExecList(Cons(Continue, Nil), Vars(1, 0), fuel) == Done(Continued, Vars(1, 0));
    assert ExecList(BODY.body, env, fuel) == Done(Continued, Vars(1, 0));
    assert Leave(env, Vars(1, 0), Declared(BODY.body)) == Vars(1, 0);
  }

  lemma InnerExec(own: bool)
    ensures Exec(Inner(own), Vars(0, 0), 1) == Done(if own then Normal else Continued, Vars(1, 0))
  {
    Small(0);
    BodyExec(1);
    assert Eval(Inner(own).c, Vars(0, 0)) == Value(1, Vars(0, 0));
    assert Eval(Inner(own).c, Vars(1, 0)) == Value(0, Vars(1, 0));
    assert Exec(Inner(own), Vars(1, 0), 0) == Done(Normal, Vars(1, 0));
  }

  lemma IterationExec(own: bool)
    ensures Exec(Outer(own).loop, Vars(0, 0), 1)
            == Done(if own then Normal else Continued, Vars(if own then 5 else 1, 0))
  {
    hide Eval;
    InnerExec(own);
    var ss := Outer(own).loop.body;
    SetFive();
    var set5 := ExprStmt(Assign("n", Literal(5)));
    assert ExecList(Nil, Vars(5, 0), 1) == Done(Normal, Vars(5, 0));
    assert ExecList(Cons(set5, Nil), Vars(1, 0), 1) == Done(Normal, Vars(5, 0));
    assert ExecList(ss, Vars(0, 0), 1) == Done(if own then Normal else Continued, Vars(if own then 5 else 1, 0));
    assert Declared(Nil) == {} && Declared(Cons(set5, Nil)) == {} && Declared(ss) == {};
    assert Leave(Vars(0, 0), Vars(if own then 5 else 1, 0), {}) == Vars(if own then 5 else 1, 0);
  }

  lemma SetFive()
    ensures Exec(ExprStmt(Assign("n", Literal(5))), Vars(1, 0), 1) == Done(Normal, Vars(5, 0))
  {
    Small(5);
    assert Vars(1, 0)["n" := Some(5)] == Vars(5, 0);
  }

  lemma OuterExec(own: bool)
    ensures var r := if own then 5 else 1;
            Exec(Outer(own), map["n" := Some(0)], 1) == Done(Normal, map["n" := Some(r)])
  {
    var s, r := Outer(own), if own then 5 else 1;
    IterationExec(own);
    LoopParts(r);
    hide Eval;
    assert ExecFor(s.c, s.step, s.loop, Vars(r, 1), 0) == Done(Normal, Vars(r, 1));
    assert ExecFor(s.c, s.step, s.loop, Vars(0, 0), 1) == Done(Normal, Vars(r, 1));
    assert Leave(map["n" := Some(0)], Vars(r, 1), {"i"}) == map["n" := Some(r)];
  }

  lemma LoopParts(r: int)
    ensures Exec(Decl("i", Some(Literal(0))), map["n" := Some(0)], 1) == Done(Normal, Vars(0, 0))
    ensures Eval(Compare(LT, Var("i"), Literal(1)), Vars(0, 0)) == Value(1, Vars(0, 0))
    ensures Eval(Compare(LT, Var("i"), Literal(1)), Vars(r, 1)) == Value(0, Vars(r, 1))
    ensures Eval(Post("i", true), Vars(r, 0)) == Value(0, Vars(r, 1))
  {
    Small(0);
    Small(1);
    assert map["n" := Some(0)]["i" := Some(0)] == Vars(0, 0);
    assert Vars(r, 0)["i" := Some(1)] == Vars(r, 1);
  }

  lemma ContinuingExec(own: bool)
    ensures var r := Exec(Continuing(own).body, map[], 1);
            r.Done? && r.o == Returned(Some(if own then 5 else 1))
  {
    hide ExecFor;
    var r := if own then 5 else 1;
    var env: Env := map["n" := Some(r)];
    Small(0);
    OuterExec(own);
    assert Exec(Decl("n", Some(Literal(0))), map[], 1) == Done(Normal, map["n" := Some(0)]);
    assert Exec(Return(Some(N)), env, 1) == Done(Returned(Some(r)), env);
    assert ExecList(Cons(Return(Some(N)), Nil), env, 1) == Done(Returned(Some(r)), env);
    assert ExecList(Cons(Outer(own), Cons(Return(Some(N)), Nil)), map["n" := Some(0)], 1)
      == Done(Returned(Some(r)), env);
  }

  lemma InnerSupported(scope: set<string>)
    ensures Supported(Inner(false), scope)
  {
    var set1 := ExprStmt(Assign("n", Literal(1)));
    assert ScopeAfter(Continue, scope) == scope && ScopeAfter(set1, scope) == scope;
    assert ListSupported(Nil, scope);
    assert ListSupported(Cons(Continue, Nil), scope);
    assert ListSupported(BODY.body, scope);
  }

  lemma IterationSupported(scope: set<string>)
    ensures Supported(Outer(false).loop, scope)
  {
    hide Safe;
    InnerSupported(scope);
    FiveIsSafe();
    assert ListSupported(Cons(ExprStmt(Assign("n", Literal(5))), Nil), scope);
  }

  lemma FiveIsSafe()
    ensures Safe(Assign("n", Literal(5)))
  {
  }

  lemma OuterSupported(scope: set<string>)
    requires "i" !in scope
    ensures Supported(Outer(false), scope)
  {
    IterationSupported(scope + {"i"});
  }

  lemma ContinuingSupported()
    ensures Supported(Continuing(false).body, ParamScope(Continuing(false)))
  {
    hide Safe;
    OuterSupported({"n"});
    ZeroIsSafe();
    assert ParamScope(Continuing(false)) == {};
    var ret := Return(Some(N));
    assert ListSupported(Cons(ret, Nil), {"n"});
    assert ListSupported(Cons(Outer(false), Cons(ret, Nil)), {"n"});
    assert {} + {"n"} == {"n"};
  }

  lemma ZeroIsSafe()
    ensures Safe(Literal(0)) && Safe(N)
  {
  }

  lemma ContinuingCalled()
    ensures Called(Continuing(false), [], 1) && CallOutcome(Continuing(false), [], 1) == Returned(Some(1))
  {
    hide Exec, Supported;
    ContinuingExec(false);
    ContinuingSupported();
    assert Bind([], [], 0, map[]) == map[];
  }

  /** The source returns 5, its code 1. */
  lemma ContinueChangesResult(regs: map<nat, int>, slots: map<nat, int>)
    ensures Exec(Continuing(true).body, map[], 1).Done? && CallOutcome(Continuing(true), [], 1) == Returned(Some(5))
    ensures var f := Continuing(true);
            exists c' :: Halts(World(LowerFunction(f), LowerBody(f).bb, []), Start(regs, slots), c', Some(1))
  {
    var f, g := Continuing(true), Continuing(false);
    ContinuingExec(true);
    ContinuingCalled();
    SameFunction(f, g);
    hide Exec, LowerFunction, LowerBody, Halts, Called, Start;
    assert Bind([], [], 0, map[]) == map[];
    var c := FunctionReturns(g, [], 1, regs, slots);
  }

  lemma SameFunction(f: Function, g: Function)
    requires f == Continuing(true) && g == Continuing(false)
    ensures LowerFunction(f) == LowerFunction(g) && LowerBody(f) == LowerBody(g)
  {
    hide Exec, LowerStmt;
    assert AsLowered(f.body) == g.body by { SameBody(); }
    assert Returns(f.body) == Returns(g.body) == 1 by { OneReturn(); }
    SameCode(f.body, 0, 1, map[], BodyContext(f));
  }

  lemma SameBody()
    ensures AsLowered(Continuing(true).body) == Continuing(false).body
  {
    assert ListAsLowered(BODY.body) == BODY.body;
    assert AsLowered(Inner(true)) == Inner(false);
    assert AsLowered(Outer(true).loop) == Outer(false).loop;
    assert AsLowered(Outer(true)) == Outer(false);
    assert ListAsLowered(Cons(Return(Some(N)), Nil)) == Cons(Return(Some(N)), Nil);
  }

  lemma OneReturn()
    ensures Returns(Continuing(true).body) == 1 && Returns(Continuing(false).body) == 1
  {
    assert ListReturns(Cons(Return(Some(N)), Nil)) == 1;
    assert ListReturns(Outer(true).loop.body) == 0 && ListReturns(Outer(false).loop.body) == 0;
    assert Returns(Outer(true)) == 0 && Returns(Outer(false)) == 0;
  }
}
