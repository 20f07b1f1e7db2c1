/** Where lowering departs from the source, and exactly when. */
module Limits {
  import opened Words
  import opened Source
  import opened IR
  import opened Lowering
  import opened ExprCorrectness
  import opened StmtCorrectness
  import opened StmtRuns
  import opened Targets
  import opened Functions

  // ---------------------------------------------------------------------
  // Assignments of comparisons as conditions
  // ---------------------------------------------------------------------

  lemma TestedAssign(e: Expr, id: nat, bb: nat, sym: SymbolTable)
    requires e.Assign? && ReturnsCompare(e)
    ensures var f := Lower(e.e, id, bb, sym);
            Tested(Lower(e, id, bb, sym)) == Tested(f) + [Store(f.val, SlotOf(sym, e.x))]
  {
    var f := Lower(e.e, id, bb, sym);
    var store := Store(f.val, SlotOf(sym, e.x));
    assert InvertIn(f.code + [store], f.val.id) == InvertIn(f.code, f.val.id) + [store];
  }

  /** Inverting the compare of e negates what its operand holds, and what an
      assignment around it stores. */
  lemma {:induction false} InvertedRuns(e: Expr, id: nat, bb: nat, sym: SymbolTable, env: Env, w: World, c: Config)
    returns (c': Config)
    requires Safe(e) && ReturnsCompare(e) && Eval(e, env).Value?
    requires Ready(w, c, Tested(Lower(e, id, bb, sym)), env, sym, id)
    ensures var f := Lower(e, id, bb, sym);
            var wrong := Truth(Eval(e, env).v == 0);
            && Reaches(w, c, c') && c'.pc == c.pc + |f.code|
            && Read(w, f.val, c') == Some(wrong)
            && (e.Assign? ==> SlotOf(sym, e.x) in c'.slots && c'.slots[SlotOf(sym, e.x)] == wrong)
    decreases e
  {
    hide Reaches, At, Agrees, Below, Keeps, Step;
    if e.Compare? {
      c' := TestedRuns(e, id, bb, sym, env, w, c);
    } else {
      var f := Lower(e.e, id, bb, sym);
      TestedAssign(e, id, bb, sym);
      AtAppend(w.code, c.pc, Tested(f), [Store(f.val, SlotOf(sym, e.x))]);
      var c1 := InvertedRuns(e.e, id, bb, sym, env, w, c);
      c' := StoreAnywhere(w, c, c1, f.val, SlotOf(sym, e.x), Truth(Eval(e, env).v == 0));
    }
  }

  lemma {:induction false} CompareIsTruth(e: Expr, env: Env)
    requires ReturnsCompare(e) && Eval(e, env).Value?
    ensures Eval(e, env).v == 0 || Eval(e, env).v == 1
    ensures e.Assign? ==> var r := Eval(e, env); e.x in r.env && r.env[e.x] == Some(r.v)
  {
    if e.Assign? { CompareIsTruth(e.e, env); }
  }

  /** Testing an expression leaves the variables right exactly if it is not an
      assignment of a comparison: such an assignment stores the negation. */
  lemma TestableIsExact(e: Expr, id: nat, bb: nat, sym: SymbolTable, env: Env, w: World, c: Config) returns (c': Config)
    requires Safe(e) && Eval(e, env).Value?
    requires Ready(w, c, Tested(Lower(e, id, bb, sym)), env, sym, id)
    ensures Reaches(w, c, c') && c'.pc == c.pc + |Lower(e, id, bb, sym).code|
    ensures Agrees(Eval(e, env).env, sym, c'.slots) <==> Testable(e)
  {
    hide Reaches, At, Below, Keeps, Step, Lower, Safe;
    if Testable(e) {
      c' := TestedRuns(e, id, bb, sym, env, w, c);
    } else {
      c' := InvertedRuns(e, id, bb, sym, env, w, c);
      CompareIsTruth(e, env);
    }
  }

  /** x = a < b as a condition, for a below b: x should become 1, the code
      stores 0. */
  lemma NegationIsStored(a: int, b: int, id: nat, bb: nat, sym: SymbolTable, env: Env, w: World, c: Config)
    returns (c': Config)
    requires a < b && HasValue(env, "a") && HasValue(env, "b") && "x" in env
    requires env["a"].value == a && env["b"].value == b
    requires Ready(w, c, Tested(Lower(Assign("x", Compare(LT, Var("a"), Var("b"))), id, bb, sym)), env, sym, id)
    ensures var e := Assign("x", Compare(LT, Var("a"), Var("b")));
            && Eval(e, env) == Value(1, env["x" := Some(1)]) && Reaches(w, c, c')
            && SlotOf(sym, "x") in c'.slots && c'.slots[SlotOf(sym, "x")] == 0
  {
    hide Reaches, At, Agrees, Below, Lower, Tested;
    var e := Assign("x", Compare(LT, Var("a"), Var("b")));
    assert Eval(e.e, env) == Value(1, env);
    c' := InvertedRuns(e, id, bb, sym, env, w, c);
  }

  // ---------------------------------------------------------------------
  // Void functions that fall off their end
  // ---------------------------------------------------------------------

  /** void f(int a) { if (a) return; } */
  const FALLING: Function := Function(["a"], true, Compound(Cons(If(Var("a"), Return(None)), Nil)))

  lemma FallingCalled()
    ensures Called(FALLING, [0], 0) && CallOutcome(FALLING, [0], 0) == Normal && Returns(FALLING.body) == 1
  {
    var s := If(Var("a"), Return(None));
    var env: Env := map["a" := Some(0)];
    assert Bind(["a"], [0], 1, env) == env;
    assert Bind(["a"], [0], 0, map[]) == env by { assert map["a" := Some(0)] == env; }
    assert Exec(s, env, 0) == Done(Normal, env);
    assert ExecList(Nil, env, 0) == Done(Normal, env);
    assert ExecList(Cons(s, Nil), env, 0) == Done(Normal, env);
    assert ListSupported(Nil, ParamScope(FALLING));
    assert Supported(s, ParamScope(FALLING));
    assert ListReturns(Nil) == 0 && Returns(s) == 1;
  }

  /** Called with zero, it runs past its end. */
  lemma FallsOffItsEnd(regs: map<nat, int>, slots: map<nat, int>)
    ensures var w := World(LowerFunction(FALLING), LowerBody(FALLING).bb, [0]);
            && !(exists c' :: Halts(w, Start(regs, slots), c', None))
            && exists c' :: Reaches(w, Start(regs, slots), c') && c'.pc == |w.code|
  {
    hide Reaches, Halts, LowerFunction, LowerBody, Called;
    FallingCalled();
    VoidEndsAtReturn(FALLING, [0], 0, regs, slots);
  }

  // ---------------------------------------------------------------------
  // A last case without statements
  // ---------------------------------------------------------------------

  /** The entries of the list of body blocks that the tests read: k is the
      index the loop over the cases carries. */
  function BodiesRead(cases: Cases, k: nat): seq<nat> {
    match cases
    case Default(_) => []
    case Case(_, ss, rest) => [k] + BodiesRead(rest, if ss.Nil? then k else k + 1)
  }

  /** All of them exist exactly if the last case has statements; otherwise the
      loop reads past the end of the list. */
  lemma {:induction false} LastCaseIsExact(cases: Cases, k: nat)
    ensures (forall j :: j in BodiesRead(cases, k) ==> j < k + Bodies(cases)) <==> LastHasBody(cases)
  {
    if cases.Case? {
      var k' := if cases.stmts.Nil? then k else k + 1;
      LastCaseIsExact(cases.rest, k');
      assert k in BodiesRead(cases, k);
      assert forall j :: j in BodiesRead(cases, k) <==> j == k || j in BodiesRead(cases.rest, k');
      if cases.rest.Case? && LastHasBody(cases.rest) {
        HasBody(cases.rest);
      }
    }
  }

  // ---------------------------------------------------------------------
  // Shadowing
  // ---------------------------------------------------------------------

  /** One statement of the list declares x again; the rest is supported. */
  predicate Shadows(ss: Stmts, x: string, scope: set<string>) {
    match ss
    case Nil => false
    case Cons(s, rest) =>
      if s.Decl? && s.x == x then (s.init.Some? ==> Safe(s.init.value)) && ListSupported(rest, scope)
      else Supported(s, scope) && Shadows(rest, x, ScopeAfter(s, scope))
  }

  lemma {:induction false} ShadowsOnlyX(ss: Stmts, x: string, scope: set<string>)
    requires Shadows(ss, x, scope) && x in scope
    ensures Declared(ss) * scope == {x}
  {
    hide Supported;
    match ss
    case Cons(s, rest) =>
      if s.Decl? && s.x == x {
        DeclaredOutside(rest, scope);
      } else {
        DeclOutside(s, scope);
        ShadowsOnlyX(rest, x, ScopeAfter(s, scope));
      }
  }

  lemma DeclOutside(s: Stmt, scope: set<string>)
    requires Supported(s, scope)
    ensures s.Decl? ==> s.x !in scope
  {
  }

  /** From the declaration on, the symbol table has the new slot for x. */
  lemma RedeclareRuns(s: Stmt, id: nat, bb: nat, sym: SymbolTable, ctx: Context, scope: set<string>,
                      fuel: nat, env: Env, w: World, c: Config) returns (c': Config)
    requires s.Decl? && (s.init.Some? ==> Safe(s.init.value)) && Exec(s, env, fuel).Done? && s.x in scope
    requires Go(w, c, LowerStmt(s, id, bb, sym, ctx).code, env, scope, sym, id, ctx)
    ensures var f, r := LowerStmt(s, id, bb, sym, ctx), Exec(s, env, fuel);
            && Reaches(w, c, c') && c'.pc == c.pc + |f.code| && Agrees(r.env, f.sym, c'.slots) && Below(f.sym, f.id)
            && r.o.Normal? && r.env.Keys == env.Keys + {s.x}
  {
    hide Reaches, Agrees, Below, At, UniqueLabels, Keeps, Lower, Eval, Safe;
    var x := s.x;
    BelowDeclare(sym, x, id, LowerStmt(s, id, bb, sym, ctx).id);
    match s.init
    case None =>
      c' := c;
      ReachesSelf(w, c);
      AgreesDeclare(env, sym, c.slots, x, id, None);
    case Some(e) =>
      var g := Lower(e, id + 1, bb, sym);
      var v, env1 := Eval(e, env).v, Eval(e, env).env;
      AtAppend(w.code, c.pc, g.code, [Store(g.val, id)]);
      EvalKeepsScope(e, env);
      BelowLater(sym, id, id + 1);
      var c1 := ExprRuns(e, id + 1, bb, sym, env, w, c);
      RanFromBelow(w, c, c1, c1.pc, env1, sym, id);
      c' := RunStoreTemporary(w, c, c1, g.val, id, v, env1, sym, id);
      AgreesDeclare(env1, sym, c'.slots, x, id, Some(v));
  }

  lemma BelowDeclare(sym: SymbolTable, x: string, id: nat, id1: nat)
    requires Below(sym, id) && id < id1
    ensures Below(sym[x := id], id1)
  {
  }

  /** The list runs on with the inner x in the place of the outer one. */
  lemma {:induction false} ShadowListRuns(ss: Stmts, x: string, id: nat, bb: nat, sym: SymbolTable, ctx: Context,
                                          scope: set<string>,
                                          fuel: nat, env: Env, w: World, c: Config) returns (c': Config)
    requires Shadows(ss, x, scope) && x in scope && ExecList(ss, env, fuel).Done? && ExecList(ss, env, fuel).o.Normal?
    requires Go(w, c, LowerList(ss, id, bb, sym, ctx).code, env, scope, sym, id, ctx)
    ensures var f, r := LowerList(ss, id, bb, sym, ctx), ExecList(ss, env, fuel);
            && Reaches(w, c, c') && c'.pc == c.pc + |f.code| && Agrees(r.env, f.sym, c'.slots) && env.Keys <= r.env.Keys
    decreases ss
  {
    hide Reaches, Agrees, Below, At, UniqueLabels, LowerStmt, Exec, Supported, Safe;
    match ss
    case Cons(s, rest) =>
      var g := LowerStmt(s, id, bb, sym, ctx);
      var h := LowerList(rest, g.id, g.bb, g.sym, ctx);
      var r := Exec(s, env, fuel);
      AtAppend(w.code, c.pc, g.code, h.code);
      if s.Decl? && s.x == x {
        var c1 := RedeclareRuns(s, id, bb, sym, ctx, scope, fuel, env, w, c);
        ListScope(rest, r.env, fuel, scope);
        c' := ListRuns(rest, g.id, g.bb, g.sym, ctx, scope, fuel, r.env, w, c1);
        ReachesTrans(w, c, c1, c');
      } else {
        StmtSymbols(s, id, bb, sym, ctx, scope);
        ExecScope(s, env, fuel, scope);
        var c1 := StatementRuns(s, id, bb, sym, ctx, scope, fuel, env, w, c);
        c' := ShadowListRuns(rest, x, g.id, g.bb, g.sym, ctx, ScopeAfter(s, scope), fuel, r.env, w, c1);
        ReachesTrans(w, c, c1, c');
      }
  }

  /** Behind a block that declares x again, the code has the variables right
      exactly if the inner x happens to end with the value of the outer one: the
      symbol table is flat per function, so x goes on to mean the inner slot. */
  lemma ShadowingIsExact(ss: Stmts, x: string, id: nat, bb: nat, sym: SymbolTable, ctx: Context, scope: set<string>,
                         fuel: nat, env: Env, w: World, c: Config) returns (c': Config)
    requires Shadows(ss, x, scope) && HasValue(env, x)
    requires var r := ExecList(ss, env, fuel); r.Done? && r.o.Normal? && HasValue(r.env, x)
    requires Go(w, c, LowerStmt(Compound(ss), id, bb, sym, ctx).code, env, scope, sym, id, ctx)
    ensures var f := LowerStmt(Compound(ss), id, bb, sym, ctx);
            && Reaches(w, c, c') && c'.pc == c.pc + |f.code| && Exec(Compound(ss), env, fuel).Done?
            && (Agrees(Exec(Compound(ss), env, fuel).env, f.sym, c'.slots)
                <==> ExecList(ss, env, fuel).env[x] == env[x])
  {
    hide Reaches, At, UniqueLabels, Below, LowerList, ExecList, Shadows, Declared, Exec;
    ShadowsOnlyX(ss, x, scope);
    c' := ShadowListRuns(ss, x, id, bb, sym, ctx, scope, fuel, env, w, c);
    var after := ExecList(ss, env, fuel).env;
    var left := Leave(env, after, Declared(ss));
    BlockExec(ss, env, fuel);
    CompoundIsList(ss, id, bb, sym, ctx);
    forall y | y in env && y != x
      ensures left[y] == after[y]
    {
      assert y in scope && (y in Declared(ss) ==> y in Declared(ss) * scope);
    }
    assert left[x] == env[x] && x in after;
  }

  lemma BlockExec(ss: Stmts, env: Env, fuel: nat)
    ensures Exec(Compound(ss), env, fuel) == LeaveResult(env, ExecList(ss, env, fuel), Declared(ss))
  {
  }

  lemma CompoundIsList(ss: Stmts, id: nat, bb: nat, sym: SymbolTable, ctx: Context)
    ensures LowerStmt(Compound(ss), id, bb, sym, ctx) == LowerList(ss, id, bb, sym, ctx)
  {
    hide LowerList;
  }

  /** int f() { int x = 1; { int x = 2; } return x; } */
  function Shadowing(): Function {
    Function([], false, Compound(Cons(Declare(1), Cons(Compound(Cons(Declare(2), Nil)), Cons(Return(Some(Var("x"))),
      Nil)))))
  }

  function Declare(n: int): Stmt { Decl("x", Some(Literal(n))) }

  lemma ShadowingSource()
    ensures Exec(Shadowing().body, map[], 0).Done? && Exec(Shadowing().body, map[], 0).o == Returned(Some(1))
  {
    var env1: Env := map["x" := Some(1)];
    var ret := Return(Some(Var("x")));
    var inner := Compound(Cons(Declare(2), Nil));
    assert Exec(Declare(1), map[], 0) == Done(Normal, env1);
    assert Exec(Declare(2), env1, 0) == Done(Normal, env1["x" := Some(2)]);
    assert ExecList(Nil, env1["x" := Some(2)], 0) == Done(Normal, env1["x" := Some(2)]);
    assert Leave(env1, env1["x" := Some(2)], Declared(Cons(Declare(2), Nil))) == env1;
    assert Exec(inner, env1, 0) == Done(Normal, env1);
    assert Exec(ret, env1, 0) == Done(Returned(Some(1)), env1);
    assert ExecList(Cons(inner, Cons(ret, Nil)), env1, 0) == Done(Returned(Some(1)), env1);
  }

  lemma DeclareCode(n: int, id: nat, sym: SymbolTable, ctx: Context)
    ensures LowerStmt(Declare(n), id, 1, sym, ctx) == StmtFrag([Store(Const(n), id)], id + 1, 1, sym["x" := id], [id])
  {
  }

  lemma ShadowingCode()
    ensures var f := Shadowing();
            && LowerFunction(f) == [Label(0), Store(Const(1), 0), Store(Const(2), 1), Load(2, 1), Ret(Some(Reg(2)))]
            && LowerBody(f).bb == 1
  {
    hide LowerStmt;
    var f := Shadowing();
    var ctx := BodyContext(f);
    var ret := Return(Some(Var("x")));
    var inner := Compound(Cons(Declare(2), Nil));
    DeclareCode(1, 0, map[], ctx);
    DeclareCode(2, 1, map["x" := 0], ctx);
    assert map["x" := 0]["x" := 1] == map["x" := 1];
    ReturnCodeOf(ctx);
    ListCode(ctx);
  }

  lemma ReturnCodeOf(ctx: Context)
    requires ctx.merge.None? && !ctx.isVoid
    ensures LowerStmt(Return(Some(Var("x"))), 2, 1, map["x" := 1], ctx)
            == StmtFrag([Load(2, 1), Ret(Some(Reg(2)))], 3, 1, map["x" := 1], [])
  {
    assert [Load(2, 1)] + [Ret(Some(Reg(2)))] == [Load(2, 1), Ret(Some(Reg(2)))];
  }

  lemma ConsCode(s: Stmt, rest: Stmts, id: nat, sym: SymbolTable, ctx: Context, g: StmtFrag, h: StmtFrag)
    requires LowerStmt(s, id, 1, sym, ctx) == g && LowerList(rest, g.id, g.bb, g.sym, ctx) == h
    ensures LowerList(Cons(s, rest), id, 1, sym, ctx)
            == StmtFrag(g.code + h.code, h.id, h.bb, h.sym, g.allocs + h.allocs)
  {
    hide LowerStmt;
  }

  lemma CompoundCode(ss: Stmts, id: nat, sym: SymbolTable, ctx: Context)
    ensures LowerStmt(Compound(ss), id, 1, sym, ctx) == LowerList(ss, id, 1, sym, ctx)
    ensures LowerList(Nil, id, 1, sym, ctx) == StmtFrag([], id, 1, sym, [])
  {
    NilCode(id, sym, ctx);
  }

  lemma NilCode(id: nat, sym: SymbolTable, ctx: Context)
    ensures LowerList(Nil, id, 1, sym, ctx) == StmtFrag([], id, 1, sym, [])
  {
  }

  lemma ListCode(ctx: Context)
    requires ctx == BodyContext(Shadowing())
    ensures LowerStmt(Shadowing().body, 0, 1, map[], ctx)
            == StmtFrag([Store(Const(1), 0), Store(Const(2), 1), Load(2, 1), Ret(Some(Reg(2)))], 3, 1,
              map["x" := 1], [0, 1])
  {
    hide LowerStmt, LowerList;
    var ret := Return(Some(Var("x")));
    var inner := Compound(Cons(Declare(2), Nil));
    var sym1: SymbolTable := map["x" := 0];
    var sym2: SymbolTable := map["x" := 1];
    DeclareCode(1, 0, map[], ctx);
    DeclareCode(2, 1, sym1, ctx);
    ReturnCodeOf(ctx);
    assert sym1["x" := 1] == sym2;
    var two := StmtFrag([Store(Const(2), 1)], 2, 1, sym2, [1]);
    var end := StmtFrag([Load(2, 1), Ret(Some(Reg(2)))], 3, 1, sym2, []);
    NilCode(2, sym2, ctx);
    NilCode(3, sym2, ctx);
    ConsCode(Declare(2), Nil, 1, sym1, ctx, two, StmtFrag([], 2, 1, sym2, []));
    CompoundCode(Cons(Declare(2), Nil), 1, sym1, ctx);
    ConsCode(ret, Nil, 2, sym2, ctx, end, StmtFrag([], 3, 1, sym2, []));
    ConsCode(inner, Cons(ret, Nil), 1, sym1, ctx, two, end);
    var rest := StmtFrag([Store(Const(2), 1), Load(2, 1), Ret(Some(Reg(2)))], 3, 1, sym2, [1]);
    assert two.code + end.code == rest.code;
    ConsCode(Declare(1), Cons(inner, Cons(ret, Nil)), 0, map[], ctx,
      StmtFrag([Store(Const(1), 0)], 1, 1, sym1, [0]), rest);
    CompoundCode(Cons(Declare(1), Cons(inner, Cons(ret, Nil))), 0, map[], ctx);
  }

  lemma ShadowingRun(regs: map<nat, int>, slots: map<nat, int>) returns (c: Config)
    ensures var code := [Label(0), Store(Const(1), 0), Store(Const(2), 1), Load(2, 1), Ret(Some(Reg(2)))];
            Halts(World(code, 1, []), Start(regs, slots), c, Some(2))
  {
    hide Reaches;
    var w := World([Label(0), Store(Const(1), 0), Store(Const(2), 1), Load(2, 1), Ret(Some(Reg(2)))], 1, []);
    var c0 := Start(regs, slots);
    ReachesSelf(w, c0);
    var c1 := Do(w, c0, c0);
    var c2 := Do(w, c0, c1);
    var c3 := Do(w, c0, c2);
    c := Do(w, c0, c3);
  }

  /** The symbol table is flat per function: the source returns 1, the listing
      the value of the inner variable. */
  lemma ShadowedVariable(regs: map<nat, int>, slots: map<nat, int>)
    ensures Exec(Shadowing().body, map[], 0).Done? && CallOutcome(Shadowing(), [], 0) == Returned(Some(1))
    ensures exists c' :: Halts(World(LowerFunction(Shadowing()), LowerBody(Shadowing()).bb, []), Start(regs, slots),
            c', Some(2))
  {
    hide LowerFunction, LowerBody, Halts, Exec, Start;
    ShadowingSource();
    ShadowingCode();
    var c := ShadowingRun(regs, slots);
  }
}
