/** The forward simulation for statements. */
module StmtRuns {
  import opened Words
  import opened Source
  import opened IR
  import opened Lowering
  import opened ExprCorrectness
  import opened StmtCorrectness

  /** The machine is about to run the code of a statement. */
  ghost predicate Go(w: World, c: Config, code: seq<Instr>, env: Env, scope: set<string>, sym: SymbolTable, id: nat,
                     ctx: Context) {
    && Ready(w, c, code, env, sym, id)
    && env.Keys <= scope
    && (ctx.isVoid ==> ctx.merge.None?)
  }

  /** The main result for statements: if the source run ends, normally, by
      break, by continue or by return, the machine arrives accordingly; if it
      goes on, so does the machine. */
  lemma {:induction false} StatementRuns(s: Stmt, id: nat, bb: nat, sym: SymbolTable, ctx: Context, scope: set<string>,
                                         fuel: nat, env: Env, w: World, c: Config) returns (c': Config)
    requires Supported(s, scope) && !Exec(s, env, fuel).Wrong?
    requires Go(w, c, LowerStmt(s, id, bb, sym, ctx).code, env, scope, sym, id, ctx)
    ensures var f := LowerStmt(s, id, bb, sym, ctx);
            Follows(w, c, c', c.pc + |f.code|, Exec(s, env, fuel), fuel, env, sym, f.sym, ctx)
    decreases fuel, s, 5
  {
    match s
    case ExprStmt(e) => c' := ExprStmtRuns(s, id, bb, sym, ctx, scope, fuel, env, w, c);
    case Decl(x, init) => c' := DeclRuns(s, id, bb, sym, ctx, scope, fuel, env, w, c);
    case Compound(ss) => c' := CompoundRuns(s, id, bb, sym, ctx, scope, fuel, env, w, c);
    case If(_, _) => c' := IfRuns(s, id, bb, sym, ctx, scope, fuel, env, w, c);
    case IfElse(_, _, _) => c' := IfElseRuns(s, id, bb, sym, ctx, scope, fuel, env, w, c);
    case While(_, _, _) => c' := WhileRuns(s, id, bb, sym, ctx, scope, fuel, env, w, c);
    case For(_, _, _, _) => c' := ForRuns(s, id, bb, sym, ctx, scope, fuel, env, w, c);
    case Switch(_, _) => c' := SwitchRuns(s, id, bb, sym, ctx, scope, fuel, env, w, c);
    case Break => c' := JumpRuns(s, id, bb, sym, ctx, scope, fuel, env, w, c);
    case Continue => c' := JumpRuns(s, id, bb, sym, ctx, scope, fuel, env, w, c);
    case Return(_) => c' := ReturnRuns(s, id, bb, sym, ctx, scope, fuel, env, w, c);
  }

  lemma {:induction false} ListRuns(ss: Stmts, id: nat, bb: nat, sym: SymbolTable, ctx: Context, scope: set<string>,
                                    fuel: nat, env: Env, w: World, c: Config) returns (c': Config)
    requires ListSupported(ss, scope) && !ExecList(ss, env, fuel).Wrong?
    requires Go(w, c, LowerList(ss, id, bb, sym, ctx).code, env, scope, sym, id, ctx)
    ensures var f := LowerList(ss, id, bb, sym, ctx);
            Follows(w, c, c', c.pc + |f.code|, ExecList(ss, env, fuel), fuel, env, sym, f.sym, ctx)
    decreases fuel, ss, 5
  {
    match ss
    case Nil =>
      ReachesSelf(w, c);
      SeenAll(env, env.Keys);
      c' := c;
    case Cons(s, rest) => c' := ConsRuns(s, rest, ss, id, bb, sym, ctx, scope, fuel, env, w, c);
  }

  lemma ConsRuns(s: Stmt, rest: Stmts, ss: Stmts, id: nat, bb: nat, sym: SymbolTable, ctx: Context, scope: set<string>,
                 fuel: nat, env: Env, w: World, c: Config) returns (c': Config)
    requires ss == Cons(s, rest) && ListSupported(ss, scope) && !ExecList(ss, env, fuel).Wrong?
    requires Go(w, c, LowerList(ss, id, bb, sym, ctx).code, env, scope, sym, id, ctx)
    ensures var f := LowerList(ss, id, bb, sym, ctx);
            Follows(w, c, c', c.pc + |f.code|, ExecList(ss, env, fuel), fuel, env, sym, f.sym, ctx)
    decreases fuel, ss, 4
  {
    hide Reaches, Agrees, Below, At, UniqueLabels, SameOn, LowerStmt, Exec, Supported, Exits, Seen;
    var g := LowerStmt(s, id, bb, sym, ctx);
    var h := LowerList(rest, g.id, g.bb, g.sym, ctx);
    var r := Exec(s, env, fuel);
    AtAppend(w.code, c.pc, g.code, h.code);
    StmtSymbols(s, id, bb, sym, ctx, scope);
    ExecScope(s, env, fuel, scope);
    AgreesKeys(env, sym, c.slots);
    var c1 := StatementRuns(s, id, bb, sym, ctx, scope, fuel, env, w, c);
    c' := c1;
    if r.Done? && r.o.Normal? {
      c' := ListRuns(rest, g.id, g.bb, g.sym, ctx, ScopeAfter(s, scope), fuel, r.env, w, c1);
      FollowsSeq(w, c, c1, c', c1.pc + |h.code|, ExecList(rest, r.env, fuel), fuel, env, r.env, scope, sym, g.sym,
        h.sym, ctx);
    }
  }

  /** Two consecutive parts, the first of which ended normally. */
  lemma FollowsSeq(w: World, c: Config, c1: Config, c': Config, end: nat, r: ExecResult, fuel: nat, env: Env, env1: Env,
                   scope: set<string>, sym: SymbolTable, sym1: SymbolTable, sym': SymbolTable, ctx: Context)
    requires Reaches(w, c, c1) && Follows(w, c1, c', end, r, fuel, env1, sym1, sym', ctx)
    requires env.Keys <= env1.Keys && env.Keys <= scope && env.Keys <= sym.Keys && SameOn(scope, sym, sym1)
    ensures Follows(w, c, c', end, r, fuel, env, sym, sym', ctx)
  {
    hide Arrived, Reaches, Busy;
    match r
    case Wrong =>
    case OutOfFuel => BusyBefore(w, c, c1, fuel);
    case Done(o, env') => ArrivedSeq(w, c, c1, c', end, o, env, env1, env', scope, sym, sym1, sym', ctx);
  }

  lemma FollowsLeaving(w: World, c: Config, c': Config, end: nat, r: ExecResult, fuel: nat, env: Env,
                       declared: set<string>, scope: set<string>, sym: SymbolTable, sym': SymbolTable, ctx: Context)
    requires Follows(w, c, c', end, r, fuel, env, sym, sym', ctx)
    requires r.Done? ==> env.Keys <= r.env.Keys
    requires env.Keys <= scope && declared !! scope && SameOn(scope, sym, sym') && env.Keys <= sym.Keys
    ensures Follows(w, c, c', end, LeaveResult(env, r, declared), fuel, env, sym, sym', ctx)
  {
    hide Arrived, Busy;
    if r.Done? {
      ArrivedLeaving(w, c, c', end, r.o, env, r.env, declared, scope, sym, sym', ctx);
    }
  }

  lemma AgreesKeys(env: Env, sym: SymbolTable, slots: map<nat, int>)
    requires Agrees(env, sym, slots)
    ensures env.Keys <= sym.Keys
  {
  }

  // ------------------------------------------------------------ simple statements

  lemma ExprStmtRuns(s: Stmt, id: nat, bb: nat, sym: SymbolTable, ctx: Context, scope: set<string>,
                     fuel: nat, env: Env, w: World, c: Config) returns (c': Config)
    requires s.ExprStmt? && Supported(s, scope) && !Exec(s, env, fuel).Wrong?
    requires Go(w, c, LowerStmt(s, id, bb, sym, ctx).code, env, scope, sym, id, ctx)
    ensures var f := LowerStmt(s, id, bb, sym, ctx);
            Follows(w, c, c', c.pc + |f.code|, Exec(s, env, fuel), fuel, env, sym, f.sym, ctx)
  {
    hide Reaches, Agrees, Below, At, UniqueLabels, Keeps, Exits, Seen, Lower, Eval, Safe;
    EvalKeepsScope(s.e, env);
    c' := ExprRuns(s.e, id, bb, sym, env, w, c);
    SameOnSelf(scope, sym);
    ArrivedNormal(w, c, c', env, Eval(s.e, env).env, scope, sym, sym, ctx);
  }

  lemma SameOnSelf(scope: set<string>, sym: SymbolTable)
    ensures SameOn(scope, sym, sym)
  {
  }

  /** A new variable gets a slot nothing else uses. */
  lemma AgreesDeclare(env: Env, sym: SymbolTable, slots: map<nat, int>, x: string, id: nat, v: Option<int>)
    requires Agrees(env, sym, slots) && Below(sym, id)
    requires v.Some? ==> id in slots && slots[id] == v.value
    ensures Agrees(env[x := v], sym[x := id], slots)
  {
  }

  lemma DeclRuns(s: Stmt, id: nat, bb: nat, sym: SymbolTable, ctx: Context, scope: set<string>,
                 fuel: nat, env: Env, w: World, c: Config) returns (c': Config)
    requires s.Decl? && Supported(s, scope) && !Exec(s, env, fuel).Wrong?
    requires Go(w, c, LowerStmt(s, id, bb, sym, ctx).code, env, scope, sym, id, ctx)
    ensures var f := LowerStmt(s, id, bb, sym, ctx);
            Follows(w, c, c', c.pc + |f.code|, Exec(s, env, fuel), fuel, env, sym, f.sym, ctx)
  {
    hide Reaches, Agrees, Below, At, UniqueLabels, Keeps, Exits, Lower, Eval, Safe;
    var x := s.x;
    match s.init
    case None =>
      c' := c;
      ReachesSelf(w, c);
      AgreesDeclare(env, sym, c.slots, x, id, None);
      assert Seen(env[x := None], env.Keys) == env;
    case Some(e) =>
      var g := Lower(e, id + 1, bb, sym);
      var v, env1 := Eval(e, env).v, Eval(e, env).env;
      AtAppend(w.code, c.pc, g.code, [Store(g.val, id)]);
      EvalKeepsScope(e, env);
      BelowLater(sym, id, id + 1);
      var c1 := ExprRuns(e, id + 1, bb, sym, env, w, c);
      RanFromBelow(w, c, c1, c1.pc, env1, sym, id);
      c' := RunStoreTemporary(w, c, c1, g.val, id, v, env1, sym, id);
      AgreesDeclare(env1, sym, c'.slots, x, id, Some(v));
      assert Seen(env1[x := Some(v)], env.Keys) == env1;
  }

  lemma RanFromBelow(w: World, c: Config, c': Config, pc: nat, env: Env, sym: SymbolTable, id: nat)
    requires Ran(w, c, c', pc, env, sym, id + 1) && Below(sym, id)
    ensures Ran(w, c, c', pc, env, sym, id)
  {
  }

  lemma CompoundRuns(s: Stmt, id: nat, bb: nat, sym: SymbolTable, ctx: Context, scope: set<string>,
                     fuel: nat, env: Env, w: World, c: Config) returns (c': Config)
    requires s.Compound? && Supported(s, scope) && !Exec(s, env, fuel).Wrong?
    requires Go(w, c, LowerStmt(s, id, bb, sym, ctx).code, env, scope, sym, id, ctx)
    ensures var f := LowerStmt(s, id, bb, sym, ctx);
            Follows(w, c, c', c.pc + |f.code|, Exec(s, env, fuel), fuel, env, sym, f.sym, ctx)
    decreases fuel, s, 4
  {
    hide Arrived, Agrees, Below, At, UniqueLabels, SameOn, Declared;
    var ss := s.body;
    var f := LowerList(ss, id, bb, sym, ctx);
    var r := ExecList(ss, env, fuel);
    AgreesKeys(env, sym, c.slots);
    ListSymbols(ss, id, bb, sym, ctx, scope);
    ListScope(ss, env, fuel, scope);
    DeclaredOutside(ss, scope);
    c' := ListRuns(ss, id, bb, sym, ctx, scope, fuel, env, w, c);
    FollowsLeaving(w, c, c', c.pc + |f.code|, r, fuel, env, Declared(ss), scope, sym, f.sym, ctx);
  }

  lemma JumpRuns(s: Stmt, id: nat, bb: nat, sym: SymbolTable, ctx: Context, scope: set<string>,
                 fuel: nat, env: Env, w: World, c: Config) returns (c': Config)
    requires s.Break? || s.Continue?
    requires Go(w, c, LowerStmt(s, id, bb, sym, ctx).code, env, scope, sym, id, ctx)
    ensures var f := LowerStmt(s, id, bb, sym, ctx);
            Follows(w, c, c', c.pc + |f.code|, Exec(s, env, fuel), fuel, env, sym, f.sym, ctx)
  {
    hide Reaches, Agrees, Below, At, UniqueLabels;
    ReachesSelf(w, c);
    SeenAll(env, env.Keys);
    c' := c;
  }

  lemma ReturnRuns(s: Stmt, id: nat, bb: nat, sym: SymbolTable, ctx: Context, scope: set<string>,
                   fuel: nat, env: Env, w: World, c: Config) returns (c': Config)
    requires s.Return? && Supported(s, scope) && !Exec(s, env, fuel).Wrong?
    requires Go(w, c, LowerStmt(s, id, bb, sym, ctx).code, env, scope, sym, id, ctx)
    ensures var f := LowerStmt(s, id, bb, sym, ctx);
            Follows(w, c, c', c.pc + |f.code|, Exec(s, env, fuel), fuel, env, sym, f.sym, ctx)
  {
    hide Reaches, Agrees, Below, At, UniqueLabels, Keeps, Lower, Eval, Safe;
    if s.ret.Some? && !ctx.isVoid {
      hide Exits, ReturnCode;
      c' := ReturnValue(s.ret.value, id, bb, sym, ctx, env, w, c);
    } else {
      ReachesSelf(w, c);
      c' := c;
      assert [] + [Ret(None)] == [Ret(None)];
      assert [] + [JumpToReturn] == [JumpToReturn];
    }
  }

  /** The value is computed and stored or returned. */
  lemma ReturnValue(e: Expr, id: nat, bb: nat, sym: SymbolTable, ctx: Context, env: Env, w: World, c: Config)
    returns (c': Config)
    requires Safe(e) && Eval(e, env).Value? && !ctx.isVoid
    requires Ready(w, c, ReturnCode(ctx, Lower(e, id, bb, sym), sym, true).code, env, sym, id)
    ensures Reaches(w, c, c') && Exits(w, c', ctx, Some(Eval(e, env).v))
  {
    hide Reaches, Agrees, Below, At, UniqueLabels, Keeps, Lower, Eval, Safe;
    var g := Lower(e, id, bb, sym);
    var exit := if ctx.merge.Some? then [Store(g.val, ctx.merge.value), JumpToReturn] else [Ret(Some(g.val))];
    AtAppend(w.code, c.pc, g.code, exit);
    c' := ExprRuns(e, id, bb, sym, env, w, c);
    if ctx.merge.Some? {
      AtOne(w.code, c'.pc, exit, 0);
      AtOne(w.code, c'.pc, exit, 1);
      c' := StoreAnywhere(w, c, c', g.val, ctx.merge.value, Eval(e, env).v);
    }
  }

  lemma StoreAnywhere(w: World, c0: Config, c: Config, src: Operand, s: nat, v: int) returns (c': Config)
    requires Reaches(w, c0, c) && At(w.code, c.pc, [Store(src, s)]) && Read(w, src, c) == Some(v)
    ensures Reaches(w, c0, c') && c' == Config(c.pc + 1, c.regs, c.slots[s := v])
  {
    AtIndex(w.code, c.pc, [Store(src, s)], 0);
    c' := Do(w, c0, c);
  }

  // ------------------------------------------------------------ if

  lemma IfLayout(code: seq<Instr>, p: nat, end: nat, c: Frag, yes: nat, t: StmtFrag)
    requires At(code, p, IfCode(end, c, yes, t).code)
    ensures var test := Tested(c) + BranchIfZero(c.val, c.id, end);
            var q := p + |test|;
            var m := q + 1 + |t.code|;
            && p + |IfCode(end, c, yes, t).code| == m + 2
            && At(code, p, test) && At(code, q, [Label(yes)]) && At(code, q + 1, t.code)
            && At(code, m, [Jump(end)]) && At(code, m + 1, [Label(end)])
  {
    hide At, Tested, BranchIfZero;
    var test := Tested(c) + BranchIfZero(c.val, c.id, end);
    var tail := [Jump(end), Label(end)];
    AtAppend(code, p, test + [Label(yes)] + t.code, tail);
    AtAppend(code, p, test + [Label(yes)], t.code);
    AtAppend(code, p, test, [Label(yes)]);
    AtOne(code, p + |test| + 1 + |t.code|, tail, 0);
    AtOne(code, p + |test| + 1 + |t.code|, tail, 1);
  }

  lemma IfRuns(s: Stmt, id: nat, bb: nat, sym: SymbolTable, ctx: Context, scope: set<string>,
               fuel: nat, env: Env, w: World, c: Config) returns (c': Config)
    requires s.If? && Supported(s, scope) && !Exec(s, env, fuel).Wrong?
    requires Go(w, c, LowerStmt(s, id, bb, sym, ctx).code, env, scope, sym, id, ctx)
    ensures var f := LowerStmt(s, id, bb, sym, ctx);
            Follows(w, c, c', c.pc + |f.code|, Exec(s, env, fuel), fuel, env, sym, f.sym, ctx)
    decreases fuel, s, 4
  {
    hide Arrived, Reaches, Agrees, Below, At, UniqueLabels, SameOn, Keeps, Lower, Eval, Safe, Testable, IfCode;
    var fc := Lower(s.c, id, bb + 1, sym);
    var tid := IdAfterBranch(fc.val, fc.id);
    var ft := LowerStmt(s.thn, tid, fc.bb + 1, sym, ctx);
    var q := c.pc + |Tested(fc) + BranchIfZero(fc.val, fc.id, bb)|;
    var m := q + 1 + |ft.code|;
    IfLayout(w.code, c.pc, bb, fc, fc.bb, ft);
    EvalKeepsScope(s.c, env);
    BelowLater(sym, id, tid);
    StmtSymbols(s.thn, tid, fc.bb + 1, sym, ctx, scope);
    var env1 := Eval(s.c, env).env;
    var c1 := ConditionRuns(s.c, id, bb + 1, bb, m + 1, sym, env, w, c);
    if Eval(s.c, env).v == 0 {
      c' := Pass(w, c, c1, bb);
      ArrivedNormal(w, c, c', env, env1, scope, sym, ft.sym, ctx);
    } else {
      c' := BranchRuns(s.thn, s, tid, fc.bb + 1, fc.bb, q, bb, m, m + 1, sym, ft.sym, ctx, scope, fuel, env, env1,
        w, c, c1);
    }
  }

  /** A branch of an `if`: its label at q, its body, and the jump at m to the
      end at p. */
  lemma BranchRuns(t: Stmt, s: Stmt, id: nat, bb: nat, entry: nat, q: nat, end: nat, m: nat, p: nat,
                   sym: SymbolTable, sym': SymbolTable, ctx: Context, scope: set<string>,
                   fuel: nat, env: Env, env1: Env, w: World, c: Config, c1: Config) returns (c': Config)
    requires t < s && Supported(t, scope) && !t.Decl? && !Exec(t, env1, fuel).Wrong?
    requires UniqueLabels(w.code) && Reaches(w, c, c1) && c1.pc == q && Agrees(env1, sym, c1.slots) && Below(sym, id)
    requires env.Keys == env1.Keys <= scope && (ctx.isVoid ==> ctx.merge.None?) && SameOn(scope, sym, sym')
    requires var f := LowerStmt(t, id, bb, sym, ctx);
             && At(w.code, q, [Label(entry)]) && At(w.code, q + 1, f.code) && m == q + 1 + |f.code|
             && At(w.code, m, [Jump(end)]) && At(w.code, p, [Label(end)])
    ensures Follows(w, c, c', p + 1, Exec(t, env1, fuel), fuel, env, sym, sym', ctx)
    decreases fuel, s, 3
  {
    hide Reaches, Agrees, Below, At, UniqueLabels, SameOn, LowerStmt, Exec, Supported, Exits;
    var f := LowerStmt(t, id, bb, sym, ctx);
    var r := Exec(t, env1, fuel);
    ExecScope(t, env1, fuel, scope);
    AgreesKeys(env1, sym, c1.slots);
    StmtSymbols(t, id, bb, sym, ctx, scope);
    var c2 := Pass(w, c, c1, entry);
    var c3 := StatementRuns(t, id, bb, sym, ctx, scope, fuel, env1, w, c2);
    c' := c3;
    if r.OutOfFuel? {
      BusyBefore(w, c, c2, fuel);
    } else if r.o.Normal? {
      ReachesTrans(w, c, c2, c3);
      c' := Hop(w, c, c3, end, p);
      SeenAll(r.env, env1.Keys);
      ArrivedNormal(w, c, c', env, r.env, scope, sym, sym', ctx);
    } else {
      ArrivedFrom(w, c, c2, c', c2.pc + |f.code|, p + 1, r.o, env, env1, r.env, sym, f.sym, sym', ctx);
    }
  }

  lemma IfElseLayout(code: seq<Instr>, p: nat, bb: nat, c: Frag, yes: nat, t: StmtFrag, e: StmtFrag)
    requires At(code, p, IfElseCode(bb, c, yes, t, e).code)
    ensures var els, end := bb, bb + 1;
            var test := Tested(c) + BranchIfZero(c.val, c.id, els);
            var q := p + |test|;
            var m := q + 1 + |t.code|;
            var k := m + 2 + |e.code|;
            && p + |IfElseCode(bb, c, yes, t, e).code| == k + 2
            && At(code, p, test) && At(code, q, [Label(yes)]) && At(code, q + 1, t.code)
            && At(code, m, [Jump(end)]) && At(code, m + 1, [Label(els)]) && At(code, m + 2, e.code)
            && At(code, k, [Jump(end)]) && At(code, k + 1, [Label(end)])
  {
    hide At, Tested, BranchIfZero;
    var els, end := bb, bb + 1;
    var test := Tested(c) + BranchIfZero(c.val, c.id, els);
    var mid, tail := [Jump(end), Label(els)], [Jump(end), Label(end)];
    var a := test + [Label(yes)] + t.code;
    AtAppend(code, p, a + mid + e.code, tail);
    AtAppend(code, p, a + mid, e.code);
    AtAppend(code, p, a, mid);
    AtAppend(code, p, test + [Label(yes)], t.code);
    AtAppend(code, p, test, [Label(yes)]);
    AtOne(code, p + |a|, mid, 0);
    AtOne(code, p + |a|, mid, 1);
    AtOne(code, p + |a| + 2 + |e.code|, tail, 0);
    AtOne(code, p + |a| + 2 + |e.code|, tail, 1);
  }

  lemma IfElseRuns(s: Stmt, id: nat, bb: nat, sym: SymbolTable, ctx: Context, scope: set<string>,
                   fuel: nat, env: Env, w: World, c: Config) returns (c': Config)
    requires s.IfElse? && Supported(s, scope) && !Exec(s, env, fuel).Wrong?
    requires Go(w, c, LowerStmt(s, id, bb, sym, ctx).code, env, scope, sym, id, ctx)
    ensures var f := LowerStmt(s, id, bb, sym, ctx);
            Follows(w, c, c', c.pc + |f.code|, Exec(s, env, fuel), fuel, env, sym, f.sym, ctx)
    decreases fuel, s, 4
  {
    hide Arrived, Reaches, Agrees, Below, At, UniqueLabels, SameOn, Keeps, Lower, Eval, Safe, Testable, IfElseCode;
    var fc := Lower(s.c, id, bb + 2, sym);
    var tid := IdAfterBranch(fc.val, fc.id);
    var ft := LowerStmt(s.thn, tid, fc.bb + 1, sym, ctx);
    var fe := LowerStmt(s.els, ft.id, ft.bb, ft.sym, ctx);
    var q := c.pc + |Tested(fc) + BranchIfZero(fc.val, fc.id, bb)|;
    var m := q + 1 + |ft.code|;
    var k := m + 2 + |fe.code|;
    IfElseLayout(w.code, c.pc, bb, fc, fc.bb, ft, fe);
    EvalKeepsScope(s.c, env);
    BelowLater(sym, id, tid);
    StmtSymbols(s.thn, tid, fc.bb + 1, sym, ctx, scope);
    StmtSymbols(s.els, ft.id, ft.bb, ft.sym, ctx, scope);
    SameOnTrans(scope, scope, sym, ft.sym, fe.sym);
    var env1 := Eval(s.c, env).env;
    var c1 := ConditionRuns(s.c, id, bb + 2, bb, m + 1, sym, env, w, c);
    AgreesKeys(env1, sym, c1.slots);
    if Eval(s.c, env).v != 0 {
      c' := BranchRuns(s.thn, s, tid, fc.bb + 1, fc.bb, q, bb + 1, m, k + 1, sym, fe.sym, ctx, scope, fuel, env,
        env1, w, c, c1);
    } else {
      AgreesShift(env1, scope, sym, ft.sym, c1.slots);
      c' := BranchRuns(s.els, s, ft.id, ft.bb, bb, m + 1, bb + 1, k, k + 1, ft.sym, fe.sym, ctx, scope, fuel, env,
        env1, w, c, c1);
      var r := Exec(s.els, env1, fuel);
      ExecScope(s.els, env1, fuel, scope);
      if r.Done? {
        ArrivedShift(w, c, c', k + 2, r.o, env, r.env, scope, sym, ft.sym, fe.sym, ctx);
      }
    }
  }

  /** The symbol table at the start may be exchanged for one with the same
      entries in scope. */
  lemma ArrivedShift(w: World, c: Config, c': Config, end: nat, o: Outcome, env: Env, env': Env, scope: set<string>,
                     sym: SymbolTable, sym1: SymbolTable, sym': SymbolTable, ctx: Context)
    requires Arrived(w, c, c', end, o, env, env', sym1, sym', ctx)
    requires env.Keys <= scope && env.Keys <= sym.Keys && SameOn(scope, sym, sym1)
    ensures Arrived(w, c, c', end, o, env, env', sym, sym', ctx)
  {
    hide Reaches;
    if !o.Returned? {
      AgreesShift(Seen(env', env.Keys), scope, sym, sym1, c'.slots);
    }
  }

  // ------------------------------------------------------------ while

  lemma WhileLayout(code: seq<Instr>, p: nat, bb: nat, c: Frag, s: StmtFrag)
    requires At(code, p, WhileCode(bb, c, s).code)
    ensures var header, loop, end := bb, bb + 1, bb + 2;
            var test := Tested(c) + BranchIfZero(c.val, c.id, end);
            var q := p + 2 + |test|;
            var m := q + 1 + |s.code|;
            && p + |WhileCode(bb, c, s).code| == m + 2
            && At(code, p, [Jump(header)]) && At(code, p + 1, [Label(header)]) && At(code, p + 2, test)
            && At(code, q, [Label(loop)]) && At(code, q + 1, s.code)
            && At(code, m, [Jump(header)]) && At(code, m + 1, [Label(end)])
  {
    hide At, Tested, BranchIfZero;
    var header, loop, end := bb, bb + 1, bb + 2;
    var head, tail := [Jump(header), Label(header)], [Jump(header), Label(end)];
    var test := Tested(c) + BranchIfZero(c.val, c.id, end);
    AtAppend(code, p, head + test + [Label(loop)] + s.code, tail);
    AtAppend(code, p, head + test + [Label(loop)], s.code);
    AtAppend(code, p, head + test, [Label(loop)]);
    AtAppend(code, p, head, test);
    AtOne(code, p, head, 0);
    AtOne(code, p, head, 1);
    AtOne(code, p + 2 + |test| + 1 + |s.code|, tail, 0);
    AtOne(code, p + 2 + |test| + 1 + |s.code|, tail, 1);
  }

  lemma WhileRuns(s: Stmt, id: nat, bb: nat, sym: SymbolTable, ctx: Context, scope: set<string>,
                  fuel: nat, env: Env, w: World, c: Config) returns (c': Config)
    requires s.While? && Supported(s, scope) && !Exec(s, env, fuel).Wrong?
    requires Go(w, c, LowerStmt(s, id, bb, sym, ctx).code, env, scope, sym, id, ctx)
    ensures var f := LowerStmt(s, id, bb, sym, ctx);
            Follows(w, c, c', c.pc + |f.code|, Exec(s, env, fuel), fuel, env, sym, f.sym, ctx)
    decreases fuel, s, 4
  {
    hide Arrived, Reaches, Agrees, Below, At, UniqueLabels, SameOn, Lower, Eval, Safe, Testable, WhileCode, Exec,
      Supported;
    var fc := Lower(s.c, id, bb + 3, sym);
    var fs := LowerStmt(s.loop, IdAfterBranch(fc.val, fc.id), fc.bb, sym, WithBreak(ctx, bb + 2));
    WhileLayout(w.code, c.pc, bb, fc, fs);
    ReachesSelf(w, c);
    var c1 := Hop(w, c, c, bb, c.pc + 1);
    c' := WhileLoopRuns(s, id, bb, sym, ctx, scope, fuel, env, w, c.pc, c1);
    FollowsEarlier(w, c, c1, c', c.pc + |WhileCode(bb, fc, fs).code|, Exec(s, env, fuel), fuel, env, sym, fs.sym, ctx);
  }

  lemma FollowsEarlier(w: World, c: Config, c1: Config, c': Config, end: nat, r: ExecResult, fuel: nat, env: Env,
                       sym: SymbolTable, sym': SymbolTable, ctx: Context)
    requires Reaches(w, c, c1) && Follows(w, c1, c', end, r, fuel, env, sym, sym', ctx)
    ensures Follows(w, c, c', end, r, fuel, env, sym, sym', ctx)
  {
    hide Reaches, Busy;
    match r
    case Wrong =>
    case OutOfFuel => BusyBefore(w, c, c1, fuel);
    case Done(_, _) => ReachesTrans(w, c, c1, c');
  }

  /** The next round of a loop, which has one unit of fuel less. */
  lemma FollowsRound(w: World, c: Config, c1: Config, c': Config, end: nat, r: ExecResult, fuel: nat, env: Env,
                     env1: Env, sym: SymbolTable, sym': SymbolTable, ctx: Context)
    requires Later(w, c, c1) && Follows(w, c1, c', end, r, fuel, env1, sym, sym', ctx) && env.Keys == env1.Keys
    ensures Follows(w, c, c', end, r, fuel + 1, env, sym, sym', ctx)
  {
    hide Reaches, Busy;
    var c2 :| Reaches(w, c, c2) && Reaches(w, c2, c1) && c2 != c1;
    ReachesTrans(w, c, c2, c1);
    match r
    case Wrong =>
    case OutOfFuel =>
      BusyBefore(w, c2, c1, fuel);
      BusyBefore(w, c, c2, fuel + 1);
    case Done(_, _) => ReachesTrans(w, c, c1, c');
  }

  /** On the way from c to c' is another state. */
  ghost predicate Later(w: World, c: Config, c': Config) {
    exists c1 :: Reaches(w, c, c1) && Reaches(w, c1, c') && c1 != c'
  }

  /** One round of a while, its parts and its code. */
  lemma OneRound(s: Stmt, id: nat, bb: nat, sym: SymbolTable, ctx: Context, scope: set<string>, env: Env, fuel: nat)
    requires s.While? && Supported(s, scope)
    ensures Safe(s.c) && Testable(s.c) && !s.loop.Decl? && (s.own ==> !Continues(s.loop)) && Supported(s.loop, scope)
    ensures var fc := Lower(s.c, id, bb + 3, sym);
            var fs := LowerStmt(s.loop, IdAfterBranch(fc.val, fc.id), fc.bb, sym, WithBreak(ctx, bb + 2));
            LowerStmt(s, id, bb, sym, ctx) == WhileCode(bb, fc, fs)
    ensures Exec(s, env, fuel) ==
            match Eval(s.c, env)
            case Undefined => Wrong
            case Value(v, env1) =>
              if v == 0 then Done(Normal, env1)
              else
                var r := Exec(s.loop, env1, fuel);
                if r.Done? && (r.o.Normal? || (r.o.Continued? && s.own)) then
                  if fuel == 0 then OutOfFuel else Exec(s, r.env, fuel - 1)
                else if r.Done? then Done(EndBreak(r.o), r.env)
                else r
  {
    hide Lower, Eval, Safe, Testable, WhileCode;
  }

  /** From behind the header of the loop at p. */
  lemma {:induction false} WhileLoopRuns(s: Stmt, id: nat, bb: nat, sym: SymbolTable, ctx: Context, scope: set<string>,
                                         fuel: nat, env: Env, w: World, p: nat, c: Config) returns (c': Config)
    requires s.While? && Supported(s, scope) && !Exec(s, env, fuel).Wrong? && c.pc == p + 2
    requires var f := LowerStmt(s, id, bb, sym, ctx);
             Go(w, c.(pc := p), f.code, env, scope, sym, id, ctx)
    ensures var f := LowerStmt(s, id, bb, sym, ctx);
            Follows(w, c, c', p + |f.code|, Exec(s, env, fuel), fuel, env, sym, f.sym, ctx)
    decreases fuel, s, 3
  {
    hide Arrived, Reaches, Agrees, Below, At, UniqueLabels, SameOn, Keeps, Lower, Eval, Safe, Testable, WhileCode,
      Exec, Supported, LowerStmt, Later;
    OneRound(s, id, bb, sym, ctx, scope, env, fuel);
    var fc := Lower(s.c, id, bb + 3, sym);
    var lid := IdAfterBranch(fc.val, fc.id);
    var fs := LowerStmt(s.loop, lid, fc.bb, sym, WithBreak(ctx, bb + 2));
    WhileLayout(w.code, p, bb, fc, fs);
    var q := p + 2 + |Tested(fc) + BranchIfZero(fc.val, fc.id, bb + 2)|;
    var m := q + 1 + |fs.code|;
    EvalKeepsScope(s.c, env);
    BelowLater(sym, id, lid);
    StmtSymbols(s.loop, lid, fc.bb, sym, WithBreak(ctx, bb + 2), scope);
    var env1 := Eval(s.c, env).env;
    var c1 := ConditionRuns(s.c, id, bb + 3, bb + 2, m + 1, sym, env, w, c);
    if Eval(s.c, env).v == 0 {
      c' := Pass(w, c, c1, bb + 2);
      ArrivedNormal(w, c, c', env, env1, scope, sym, fs.sym, ctx);
    } else {
      var c2 := Pass(w, c, c1, bb + 1);
      if s.own { NoContinue(s.loop, env1, fuel); }
      ExecScope(s.loop, env1, fuel, scope);
      var r := Exec(s.loop, env1, fuel);
      var c3 := StatementRuns(s.loop, lid, fc.bb, sym, WithBreak(ctx, bb + 2), scope, fuel, env1, w, c2);
      c' := c3;
      if r.OutOfFuel? {
        BusyBefore(w, c, c2, fuel);
      } else if r.o.Normal? {
        if fuel > 0 {
          var c4 := LoopBack(w, c, c2, c3, bb, m, p + 1, env1, r.env, sym, fs.sym, WithBreak(ctx, bb + 2));
          c' := WhileLoopRuns(s, id, bb, sym, ctx, scope, fuel - 1, r.env, w, p, c4);
          FollowsRound(w, c, c4, c', m + 2, Exec(s, r.env, fuel - 1), fuel - 1, env, r.env, sym, fs.sym, ctx);
        }
      } else {
        c' := LoopExit(w, c, c2, c3, bb + 2, m + 1, r.o, env, env1, r.env, scope, sym, fs.sym, ctx,
          WithBreak(ctx, bb + 2), c2.pc + |fs.code|);
      }
    }
  }

  /** The body ended normally at m: back to the block at p, and past its label. */
  lemma LoopBack(w: World, c: Config, c2: Config, c3: Config, bb: nat, m: nat, p: nat, env1: Env, env2: Env,
                 sym: SymbolTable, sym': SymbolTable, ctx: Context) returns (c': Config)
    requires UniqueLabels(w.code) && Reaches(w, c, c2) && Arrived(w, c2, c3, m, Normal, env1, env2, sym, sym', ctx)
    requires env1.Keys == env2.Keys && At(w.code, m, [Jump(bb)]) && At(w.code, p, [Label(bb)]) && p + 1 < m
    ensures Later(w, c, c') && c'.pc == p + 1 && Agrees(env2, sym, c'.slots)
  {
    hide Reaches, Agrees, At, UniqueLabels;
    ReachesTrans(w, c, c2, c3);
    SeenAll(env2, env1.Keys);
    ReachesSelf(w, c3);
    c' := Hop(w, c3, c3, bb, p);
  }

  /** The body ended the loop: by break, which jumps to the end at p, by
      return, or by a continue of the loop around it. */
  lemma LoopExit(w: World, c: Config, c2: Config, c3: Config, end: nat, p: nat, o: Outcome, env: Env, env1: Env,
                 env2: Env,
                 scope: set<string>, sym: SymbolTable, sym': SymbolTable, ctx: Context, inner: Context,
                   k: nat) returns (c': Config)
    requires UniqueLabels(w.code) && Reaches(w, c, c2) && Arrived(w, c2, c3, k, o, env1, env2, sym, sym', inner)
    requires o.Broke? || o.Returned? || (o.Continued? && inner.increments == ctx.increments)
    requires Last(inner.breaks) == end && At(w.code, p, [Label(end)])
    requires inner.isVoid == ctx.isVoid && inner.merge == ctx.merge
    requires env.Keys == env1.Keys == env2.Keys && env.Keys <= scope && SameOn(scope, sym, sym')
    ensures Arrived(w, c, c', p + 1, EndBreak(o), env, env2, sym, sym', ctx)
  {
    hide Reaches, Agrees, At, UniqueLabels, SameOn;
    ReachesTrans(w, c, c2, c3);
    if o.Broke? {
      c' := Hop(w, c, c3, end, p);
      SeenAll(env2, env1.Keys);
      ArrivedNormal(w, c, c', env, env2, scope, sym, sym', ctx);
    } else {
      c' := c3;
    }
  }

  // ------------------------------------------------------------ for

  lemma ForLayout(code: seq<Instr>, p: nat, bb: nat, start: StmtFrag, c: Frag, s: StmtFrag, step: Frag)
    requires At(code, p, ForCode(bb, start, c, s, step).code)
    ensures var header, loop, increment, end := bb, bb + 1, bb + 2, bb + 3;
            var test := Tested(c) + BranchIfZero(c.val, c.id, end);
            var h := p + |start.code| + 1;
            var q := h + 1 + |test|;
            var m := q + 1 + |s.code|;
            var k := m + 2 + |step.code|;
            && p + |ForCode(bb, start, c, s, step).code| == k + 2
            && At(code, p, start.code) && At(code, h - 1, [Jump(header)])
            && At(code, h, [Label(header)]) && At(code, h + 1, test)
            && At(code, q, [Label(loop)]) && At(code, q + 1, s.code)
            && At(code, m, [Jump(increment)]) && At(code, m + 1, [Label(increment)]) && At(code, m + 2, step.code)
            && At(code, k, [Jump(header)]) && At(code, k + 1, [Label(end)])
  {
    hide At, Tested, BranchIfZero;
    var header, loop, increment, end := bb, bb + 1, bb + 2, bb + 3;
    var test := Tested(c) + BranchIfZero(c.val, c.id, end);
    var front := start.code + [Jump(header), Label(header)] + test + [Label(loop)];
    var h := p + |start.code| + 1;
    var m := h + 1 + |test| + 1 + |s.code|;
    AtAppend5(code, p, front, s.code, [Jump(increment), Label(increment)], step.code, [Jump(header), Label(end)]);
    AtAppend4(code, p, start.code, [Jump(header), Label(header)], test, [Label(loop)]);
    AtTwo(code, h - 1, Jump(header), Label(header));
    AtTwo(code, m, Jump(increment), Label(increment));
    AtTwo(code, m + 2 + |step.code|, Jump(header), Label(end));
  }

  lemma ForRuns(s: Stmt, id: nat, bb: nat, sym: SymbolTable, ctx: Context, scope: set<string>,
                fuel: nat, env: Env, w: World, c: Config) returns (c': Config)
    requires s.For? && Supported(s, scope) && !Exec(s, env, fuel).Wrong?
    requires Go(w, c, LowerStmt(s, id, bb, sym, ctx).code, env, scope, sym, id, ctx)
    ensures var f := LowerStmt(s, id, bb, sym, ctx);
            Follows(w, c, c', c.pc + |f.code|, Exec(s, env, fuel), fuel, env, sym, f.sym, ctx)
    decreases fuel, s, 4
  {
    hide Arrived, Reaches, Agrees, Below, At, UniqueLabels, SameOn, Keeps, Lower, Eval, Safe, Testable, ForCode,
      ExecFor;
    var f0 := LowerStmt(s.start, id, bb + 4, sym, ctx);
    var fc := Lower(s.c, f0.id, f0.bb, f0.sym);
    var lid := IdAfterBranch(fc.val, fc.id);
    var inner := WithLoop(ctx, bb + 3, bb + 2);
    var scope1 := ScopeAfter(s.start, scope);
    var fs := LowerStmt(s.loop, lid, fc.bb, f0.sym, inner);
    var fi := Lower(s.step, fs.id, fs.bb, fs.sym);
    var f := ForCode(bb, f0, fc, fs, fi);
    var r0 := Exec(s.start, env, fuel);
    var r := ExecFor(s.c, s.step, s.loop, r0.env, fuel);
    ForLayout(w.code, c.pc, bb, f0, fc, fs, fi);
    AgreesKeys(env, sym, c.slots);
    StmtSymbols(s.start, id, bb + 4, sym, ctx, scope);
    BelowLater(f0.sym, f0.id, lid);
    StmtSymbols(s.loop, lid, fc.bb, f0.sym, inner, scope1);
    SameOnTrans(scope, scope1, sym, f0.sym, fs.sym);
    ExecScope(s.start, env, fuel, scope);
    ForScope(s.c, s.step, s.loop, r0.env, fuel, scope1);
    var c1 := StatementRuns(s.start, id, bb + 4, sym, ctx, scope, fuel, env, w, c);
    var c2 := ForEnter(w, c, c1, bb, c.pc + |f0.code|, env, r0.env, sym, f0.sym, ctx);
    c' := ForLoopRuns(s, f0, fc, fs, fi, bb, ctx, scope1, fuel, r0.env, w, c.pc, c2);
    FollowsSeq(w, c, c2, c', c.pc + |f.code|, r, fuel, env, r0.env, scope, sym, f0.sym, fs.sym, ctx);
    FollowsLeaving(w, c, c', c.pc + |f.code|, r, fuel, env, if s.start.Decl? then {s.start.x} else {}, scope, sym,
      fs.sym, ctx);
  }

  /** From the initialisation to behind the header. */
  lemma ForEnter(w: World, c: Config, c1: Config, header: nat, p: nat, env: Env, env1: Env,
                 sym: SymbolTable, sym1: SymbolTable, ctx: Context) returns (c': Config)
    requires UniqueLabels(w.code) && Arrived(w, c, c1, p, Normal, env, env1, sym, sym1, ctx)
    requires At(w.code, p, [Jump(header)]) && At(w.code, p + 1, [Label(header)])
    ensures Reaches(w, c, c') && c'.pc == p + 2 && Agrees(env1, sym1, c'.slots)
  {
    hide Reaches, Agrees, At, UniqueLabels;
    c' := Hop(w, c, c1, header, p + 1);
  }

  lemma {:induction false} ForScope(c: Expr, step: Expr, loop: Stmt, env: Env, fuel: nat, scope: set<string>)
    requires Supported(loop, scope) && !loop.Decl? && env.Keys <= scope
    ensures var r := ExecFor(c, step, loop, env, fuel); r.Done? ==> r.env.Keys == env.Keys
    decreases fuel
  {
    hide Supported, Exec, Eval;
    EvalKeepsScope(c, env);
    if Eval(c, env).Value? {
      var env1 := Eval(c, env).env;
      ExecScope(loop, env1, fuel, scope);
      var r := Exec(loop, env1, fuel);
      if r.Done? {
        EvalKeepsScope(step, r.env);
        if Eval(step, r.env).Value? && fuel > 0 {
          ForScope(c, step, loop, Eval(step, r.env).env, fuel - 1, scope);
        }
      }
    }
  }

  /** From behind the header of the `for` at p. */
  lemma {:induction false} ForLoopRuns(s: Stmt, f0: StmtFrag, fc: Frag, fs: StmtFrag, fi: Frag, bb: nat, ctx: Context,
                                       scope: set<string>,
                                       fuel: nat, env: Env, w: World, p: nat, c: Config) returns (c': Config)
    requires s.For? && Safe(s.c) && Testable(s.c) && Safe(s.step) && !s.loop.Decl? && Supported(s.loop, scope)
    requires fc == Lower(s.c, f0.id, f0.bb, f0.sym)
    requires fs == LowerStmt(s.loop, IdAfterBranch(fc.val, fc.id), fc.bb, f0.sym, WithLoop(ctx, bb + 3, bb + 2))
    requires fi == Lower(s.step, fs.id, fs.bb, fs.sym)
    requires UniqueLabels(w.code) && At(w.code, p, ForCode(bb, f0, fc, fs, fi).code)
    requires c.pc == p + |f0.code| + 2 && Agrees(env, f0.sym, c.slots) && Below(f0.sym, f0.id)
    requires env.Keys <= scope && (ctx.isVoid ==> ctx.merge.None?)
    requires !ExecFor(s.c, s.step, s.loop, env, fuel).Wrong?
    ensures Follows(w, c, c', p + |ForCode(bb, f0, fc, fs, fi).code|, ExecFor(s.c, s.step, s.loop, env, fuel), fuel,
                    env, f0.sym, fs.sym, ctx)
    decreases fuel, s, 3
  {
    hide Arrived, Reaches, Agrees, Below, At, UniqueLabels, SameOn, Keeps, Lower, Eval, Safe, Testable, ForCode,
      Supported, LowerStmt, Exec;
    var lid := IdAfterBranch(fc.val, fc.id);
    var inner := WithLoop(ctx, bb + 3, bb + 2);
    ForLayout(w.code, p, bb, f0, fc, fs, fi);
    var q := p + |f0.code| + 2 + |Tested(fc) + BranchIfZero(fc.val, fc.id, bb + 3)|;
    var m := q + 1 + |fs.code|;
    var k := m + 2 + |fi.code|;
    EvalKeepsScope(s.c, env);
    BelowLater(f0.sym, f0.id, lid);
    StmtSymbols(s.loop, lid, fc.bb, f0.sym, inner, scope);
    var env1 := Eval(s.c, env).env;
    var c1 := ConditionRuns(s.c, f0.id, f0.bb, bb + 3, k + 1, f0.sym, env, w, c);
    if Eval(s.c, env).v == 0 {
      c' := Pass(w, c, c1, bb + 3);
      ArrivedNormal(w, c, c', env, env1, scope, f0.sym, fs.sym, ctx);
    } else {
      var c2 := Pass(w, c, c1, bb + 1);
      ExecScope(s.loop, env1, fuel, scope);
      var r := Exec(s.loop, env1, fuel);
      var c3 := StatementRuns(s.loop, lid, fc.bb, f0.sym, inner, scope, fuel, env1, w, c2);
      c' := c3;
      if r.OutOfFuel? {
        BusyBefore(w, c, c2, fuel);
      } else if r.o.Normal? || r.o.Continued? {
        AgreesKeys(env1, f0.sym, c2.slots);
        var c4 := ToIncrement(w, c, c2, c3, r.o, bb + 2, m, env1, r.env, scope, f0.sym, fs.sym, inner);
        EvalKeepsScope(s.step, r.env);
        var env3 := Eval(s.step, r.env).env;
        var c5 := ExprRuns(s.step, fs.id, fs.bb, fs.sym, r.env, w, c4);
        if fuel > 0 {
          ReachesTrans(w, c, c4, c5);
          ReachesSelf(w, c5);
          var c6 := Hop(w, c5, c5, bb, p + |f0.code| + 1);
          AgreesShift(env3, scope, f0.sym, fs.sym, c6.slots);
          c' := ForLoopRuns(s, f0, fc, fs, fi, bb, ctx, scope, fuel - 1, env3, w, p, c6);
          var r' := ExecFor(s.c, s.step, s.loop, env3, fuel - 1);
          FollowsRound(w, c, c6, c', k + 2, r', fuel - 1, env, env3, f0.sym, fs.sym, ctx);
        }
      } else {
        c' := LoopExit(w, c, c2, c3, bb + 3, k + 1, r.o, env, env1, r.env, scope, f0.sym, fs.sym, ctx, inner,
          c2.pc + |fs.code|);
      }
    }
  }

  /** The body ended normally or by continue: the increment at m + 1 is next. */
  lemma ToIncrement(w: World, c: Config, c2: Config, c3: Config, o: Outcome, increment: nat, m: nat, env1: Env,
                    env2: Env,
                    scope: set<string>, sym: SymbolTable, sym': SymbolTable, ctx: Context) returns (c': Config)
    requires UniqueLabels(w.code) && Reaches(w, c, c2) && Arrived(w, c2, c3, m, o, env1, env2, sym, sym', ctx)
    requires (o.Normal? || o.Continued?) && Last(ctx.increments) == increment
    requires env1.Keys == env2.Keys && env1.Keys <= scope && env1.Keys <= sym.Keys && SameOn(scope, sym, sym')
    requires At(w.code, m, [Jump(increment)]) && At(w.code, m + 1, [Label(increment)])
    ensures Reaches(w, c, c') && c'.pc == m + 2 && Agrees(env2, sym', c'.slots)
  {
    hide Reaches, Agrees, At, UniqueLabels, SameOn;
    ReachesTrans(w, c, c2, c3);
    SeenAll(env2, env1.Keys);
    c' := Hop(w, c, c3, increment, m + 1);
    AgreesShift(env2, scope, sym, sym', c'.slots);
  }

  // ------------------------------------------------------------ switch

  /** The block the tests of the cases send value v to; k is the block of the
      next body. */
  function TargetOf(v: int, cases: Cases, k: nat, default: nat): nat {
    match cases
    case Default(_) => default
    case Case(n, ss, rest) =>
      if v == Wrap(n) then k else TargetOf(v, rest, if ss.Nil? then k else k + 1, default)
  }

  /** The block the bodies of the cases start with. */
  function FirstBlock(cases: Cases, k: nat, default: nat): nat {
    match cases
    case Default(_) => default
    case Case(_, ss, rest) => if ss.Nil? then FirstBlock(rest, k, default) else k
  }

  /** The tests are a chain of compares and branches; it leads to the target. */
  lemma {:induction false} TestsRun(v: int, cases: Cases, val: Operand, id: nat, k: nat, default: nat, p: nat,
                                    env: Env, sym: SymbolTable, lo: nat, w: World, c0: Config,
                                      c: Config) returns (c': Config)
    requires UniqueLabels(w.code) && Ran(w, c0, c, c.pc, env, sym, id) && Fresh(val, lo, id)
    requires At(w.code, c.pc, CaseTests(cases, val, id, k) + [Jump(default)])
    requires Read(w, val, c) == Some(v) && At(w.code, p, [Label(TargetOf(v, cases, k, default))])
    ensures Reaches(w, c0, c') && c'.pc == p && Agrees(env, sym, c'.slots)
    decreases cases
  {
    hide Reaches, Agrees, Below, Keeps, At, UniqueLabels, Step, Goto, Define, Wrap;
    match cases
    case Default(_) =>
      assert [] + [Jump(default)] == [Jump(default)];
      c' := RunJump(w, c0, c, default, p, env, sym, id);
    case Case(n, ss, rest) =>
      var test := [Cmp(id, EQ, val, Const(n)), Branch(CmpResult(id), k)];
      var k' := if ss.Nil? then k else k + 1;
      assert CaseTests(cases, val, id, k) + [Jump(default)]
        == test + (CaseTests(rest, val, id + 1, k') + [Jump(default)]);
      AtAppend(w.code, c.pc, test, CaseTests(rest, val, id + 1, k') + [Jump(default)]);
      AtOne(w.code, c.pc, test, 0);
      AtOne(w.code, c.pc, test, 1);
      var c1 := RunCmp(w, c0, c, id, EQ, val, Const(n), v, Wrap(n), env, sym, id);
      c' := RunCaseBranch(w, c0, c1, id, k, p, v == Wrap(n), env, sym);
      if v != Wrap(n) {
        BelowLater(sym, id, id + 1);
        RanLater(w, c0, c1, c', c1.pc + 1, env, sym, id);
        c' := TestsRun(v, rest, val, id + 1, k', default, p, env, sym, lo, w, c1, c');
        ReachesTrans(w, c0, c1, c');
      }
  }

  lemma RanLater(w: World, c0: Config, c: Config, c': Config, p: nat, env: Env, sym: SymbolTable, id: nat)
    requires Ran(w, c0, c, c.pc, env, sym, id) && Reaches(w, c, c') && c' == c.(pc := p)
    ensures Ran(w, c, c', p, env, sym, id + 1) && Reaches(w, c0, c)
  {
  }

  lemma RunCaseBranch(w: World, c0: Config, c: Config, id: nat, k: nat, p: nat, taken: bool, env: Env, sym: SymbolTable)
    returns (c': Config)
    requires UniqueLabels(w.code) && Ran(w, c0, c, c.pc, env, sym, id)
    requires At(w.code, c.pc, [Branch(CmpResult(id), k)]) && id in c.regs && c.regs[id] == Truth(taken)
    requires taken ==> At(w.code, p, [Label(k)])
    ensures Reaches(w, c0, c') && Reaches(w, c, c') && c'.pc == (if taken then p else c.pc + 1)
    ensures !taken ==> c' == c.(pc := c.pc + 1)
    ensures Agrees(env, sym, c'.slots)
  {
    AtIndex(w.code, c.pc, [Branch(CmpResult(id), k)], 0);
    if taken {
      AtIndex(w.code, p, [Label(k)], 0);
      FindLabel(w.code, k, p);
    }
    ReachesSelf(w, c);
    c' := Do(w, c, c);
    ReachesTrans(w, c0, c, c');
  }

  /** A suffix of the cases together with where its bodies are. */
  datatype Suffix = Suffix(cases: Cases, k: nat, id: nat, bb: nat, sym: SymbolTable, scope: set<string>, p: nat)

  /** The bodies of a nonempty list of cases start at their first block. */
  lemma {:induction false} BodiesStart(cases: Cases, k: nat, default: nat, id: nat, bb: nat, sym: SymbolTable,
                                       ctx: Context,
                                       code: seq<Instr>, p: nat)
    requires At(code, p, LowerCases(cases, k, default, id, bb, sym, ctx).code)
    ensures At(code, p, [Label(FirstBlock(cases, k, default))])
    decreases cases
  {
    hide At;
    match cases
    case Default(ss) => AtAppend(code, p, [Label(default)], LowerList(ss, id, bb, sym, ctx).code);
    case Case(_, ss, rest) =>
      if ss.Nil? {
        BodiesStart(rest, k, default, id, bb, sym, ctx, code, p);
      } else {
        var g := LowerList(ss, id, bb, sym, ctx);
        var h := LowerCases(rest, k + 1, default, g.id, g.bb, g.sym, ctx);
        assert [Label(k)] + g.code + h.code == [Label(k)] + (g.code + h.code);
        AtAppend(code, p, [Label(k)], g.code + h.code);
      }
  }

  /** The tests and the bodies agree: the target block starts the bodies of
      exactly the cases the source runs. */
  lemma {:induction false} FindBody(v: int, cases: Cases, k: nat, default: nat, id: nat, bb: nat, sym: SymbolTable,
                                    ctx: Context,
                                    scope: set<string>, fuel: nat, env: Env, code: seq<Instr>,
                                      p: nat) returns (s: Suffix)
    requires CasesSupported(cases, scope) && LastHasBody(cases) && Below(sym, id) && env.Keys <= scope &&
             env.Keys <= sym.Keys
    requires At(code, p, LowerCases(cases, k, default, id, bb, sym, ctx).code)
    ensures var f := LowerCases(cases, k, default, id, bb, sym, ctx);
            var g := LowerCases(s.cases, s.k, default, s.id, s.bb, s.sym, ctx);
            && (s.cases == cases || s.cases < cases)
            && ExecSwitch(v, cases, env, fuel) == ExecCases(s.cases, env, fuel)
            && CasesSupported(s.cases, s.scope) && scope <= s.scope
            && SameOn(scope, sym, s.sym) && Below(s.sym, s.id)
            && At(code, s.p, g.code) && s.p + |g.code| == p + |f.code| && g.sym == f.sym
            && At(code, s.p, [Label(TargetOf(v, cases, k, default))])
    decreases cases
  {
    hide At, SameOn, Below, Wrap;
    SameOnSelf(scope, sym);
    s := Suffix(cases, k, id, bb, sym, scope, p);
    BodiesStart(cases, k, default, id, bb, sym, ctx, code, p);
    match cases
    case Default(_) =>
    case Case(n, ss, rest) =>
      if v == Wrap(n) {
        FirstIsNext(cases, k, default);
      } else if ss.Nil? {
        s := FindBody(v, rest, k, default, id, bb, sym, ctx, scope, fuel, env, code, p);
      } else {
        var g := LowerList(ss, id, bb, sym, ctx);
        var h := LowerCases(rest, k + 1, default, g.id, g.bb, g.sym, ctx);
        var scope1 := ScopeAfterList(ss, scope);
        assert [Label(k)] + g.code + h.code == ([Label(k)] + g.code) + h.code;
        AtAppend(code, p, [Label(k)] + g.code, h.code);
        ScopeGrows(ss, scope);
        ListSymbols(ss, id, bb, sym, ctx, scope);
        SameOnKeys(scope, sym, g.sym, env);
        s := FindBody(v, rest, k + 1, default, g.id, g.bb, g.sym, ctx, scope1, fuel, env, code, p + 1 + |g.code|);
        SameOnTrans(scope, scope1, sym, g.sym, s.sym);
      }
  }

  lemma SameOnKeys(scope: set<string>, sym: SymbolTable, sym': SymbolTable, env: Env)
    requires SameOn(scope, sym, sym') && env.Keys <= scope && env.Keys <= sym.Keys
    ensures env.Keys <= sym'.Keys
  {
  }

  /** A matched case without statements runs into the next body. */
  lemma {:induction false} FirstIsNext(cases: Cases, k: nat, default: nat)
    requires cases.Case? && LastHasBody(cases)
    ensures FirstBlock(cases, k, default) == k
  {
    if cases.stmts.Nil? {
      FirstIsNext(cases.rest, k, default);
    }
  }

  /** Bodies from a given case on, falling through their labels. */
  lemma {:induction false} CasesRun(cases: Cases, k: nat, default: nat, id: nat, bb: nat, sym: SymbolTable,
                                    ctx: Context, scope: set<string>,
                                    fuel: nat, env: Env, w: World, c: Config) returns (c': Config)
    requires CasesSupported(cases, scope) && !ExecCases(cases, env, fuel).Wrong?
    requires Go(w, c, LowerCases(cases, k, default, id, bb, sym, ctx).code, env, scope, sym, id, ctx)
    ensures var f := LowerCases(cases, k, default, id, bb, sym, ctx);
            Follows(w, c, c', c.pc + |f.code|, ExecCases(cases, env, fuel), fuel, env, sym, f.sym, ctx)
    decreases fuel, cases, 5
  {
    hide Arrived, Reaches, Agrees, Below, At, UniqueLabels, SameOn, ListSupported, LowerList;
    match cases
    case Default(ss) =>
      var g := LowerList(ss, id, bb, sym, ctx);
      AtAppend(w.code, c.pc, [Label(default)], g.code);
      ReachesSelf(w, c);
      var c1 := Pass(w, c, c, default);
      c' := ListRuns(ss, id, bb, sym, ctx, scope, fuel, env, w, c1);
      FollowsEarlier(w, c, c1, c', c.pc + 1 + |g.code|, ExecList(ss, env, fuel), fuel, env, sym, g.sym, ctx);
    case Case(_, ss, rest) =>
      if ss.Nil? {
        EmptyList(scope);
        c' := CasesRun(rest, k, default, id, bb, sym, ctx, scope, fuel, env, w, c);
      } else {
        c' := CaseRuns(ss, rest, cases, k, default, id, bb, sym, ctx, scope, fuel, env, w, c);
      }
  }

  lemma EmptyList(scope: set<string>)
    ensures ScopeAfterList(Nil, scope) == scope
  {
  }

  lemma CaseRuns(ss: Stmts, rest: Cases, cases: Cases, k: nat, default: nat, id: nat, bb: nat, sym: SymbolTable,
                 ctx: Context, scope: set<string>,
                 fuel: nat, env: Env, w: World, c: Config) returns (c': Config)
    requires cases.Case? && cases.stmts == ss && cases.rest == rest && ss.Cons?
    requires CasesSupported(cases, scope) && !ExecCases(cases, env, fuel).Wrong?
    requires Go(w, c, LowerCases(cases, k, default, id, bb, sym, ctx).code, env, scope, sym, id, ctx)
    ensures var f := LowerCases(cases, k, default, id, bb, sym, ctx);
            Follows(w, c, c', c.pc + |f.code|, ExecCases(cases, env, fuel), fuel, env, sym, f.sym, ctx)
    decreases fuel, cases, 4
  {
    hide Reaches, Agrees, Below, At, UniqueLabels, SameOn, ListSupported, LowerList, ExecList, Exits, Seen;
    var g := LowerList(ss, id, bb, sym, ctx);
    var h := LowerCases(rest, k + 1, default, g.id, g.bb, g.sym, ctx);
    var scope1 := ScopeAfterList(ss, scope);
    AtAppend(w.code, c.pc, [Label(k)] + g.code, h.code);
    AtAppend(w.code, c.pc, [Label(k)], g.code);
    ReachesSelf(w, c);
    AgreesKeys(env, sym, c.slots);
    ListSymbols(ss, id, bb, sym, ctx, scope);
    ListScope(ss, env, fuel, scope);
    var r := ExecList(ss, env, fuel);
    var c1 := Pass(w, c, c, k);
    var c2 := ListRuns(ss, id, bb, sym, ctx, scope, fuel, env, w, c1);
    c' := c2;
    if r.OutOfFuel? {
      BusyBefore(w, c, c1, fuel);
    } else if r.o.Normal? {
      ReachesTrans(w, c, c1, c2);
      c' := CasesRun(rest, k + 1, default, g.id, g.bb, g.sym, ctx, scope1, fuel, r.env, w, c2);
      var r' := ExecCases(rest, r.env, fuel);
      FollowsSeq(w, c, c2, c', c2.pc + |h.code|, r', fuel, env, r.env, scope, sym, g.sym, h.sym, ctx);
    } else {
      ArrivedFrom(w, c, c1, c', c1.pc + |g.code|, c.pc + 1 + |g.code| + |h.code|, r.o, env, env, r.env, sym, g.sym,
        h.sym, ctx);
    }
  }

  lemma SwitchLayout(code: seq<Instr>, p: nat, bb: nat, c: Frag, cases: Cases, bodies: StmtFrag)
    requires At(code, p, SwitchCode(bb, c, cases, bodies).code)
    ensures var tests := CaseTests(cases, c.val, c.id, c.bb) + [Jump(bb + 1)];
            var q := p + |c.code| + |tests|;
            && p + |SwitchCode(bb, c, cases, bodies).code| == q + |bodies.code| + 1
            && At(code, p, c.code) && At(code, p + |c.code|, tests)
            && At(code, q, bodies.code) && At(code, q + |bodies.code|, [Label(bb)])
  {
    hide At, CaseTests;
    var tests := CaseTests(cases, c.val, c.id, c.bb) + [Jump(bb + 1)];
    assert c.code + CaseTests(cases, c.val, c.id, c.bb) + [Jump(bb + 1)] == c.code + tests;
    AtAppend(code, p, c.code + tests + bodies.code, [Label(bb)]);
    AtAppend(code, p, c.code + tests, bodies.code);
    AtAppend(code, p, c.code, tests);
  }

  lemma SwitchRuns(s: Stmt, id: nat, bb: nat, sym: SymbolTable, ctx: Context, scope: set<string>,
                   fuel: nat, env: Env, w: World, c: Config) returns (c': Config)
    requires s.Switch? && Supported(s, scope) && !Exec(s, env, fuel).Wrong?
    requires Go(w, c, LowerStmt(s, id, bb, sym, ctx).code, env, scope, sym, id, ctx)
    ensures var f := LowerStmt(s, id, bb, sym, ctx);
            Follows(w, c, c', c.pc + |f.code|, Exec(s, env, fuel), fuel, env, sym, f.sym, ctx)
    decreases fuel, s, 4
  {
    hide Arrived, Reaches, Agrees, Below, At, UniqueLabels, SameOn, Keeps, Lower, Eval, Safe, SwitchCode;
    hide ExecSwitch, CasesSupported, LastHasBody, LowerCases, DeclaredInCases, Leave, CaseTests;
    var cases := s.cases;
    var fc := Lower(s.c, id, bb + 2, sym);
    var inner := WithBreak(ctx, bb);
    var bid, bbb := fc.id + TestCount(cases), fc.bb + Bodies(cases);
    var fb := LowerCases(cases, fc.bb, bb + 1, bid, bbb, sym, inner);
    var q := c.pc + |fc.code| + |CaseTests(cases, fc.val, fc.id, fc.bb) + [Jump(bb + 1)]|;
    var v, env1 := Eval(s.c, env).v, Eval(s.c, env).env;
    var r := ExecSwitch(v, cases, env1, fuel);
    SwitchLayout(w.code, c.pc, bb, fc, cases, fb);
    EvalKeepsScope(s.c, env);
    AgreesKeys(env, sym, c.slots);
    BelowLater(sym, id, bid);
    BelowLater(sym, id, fc.id);
    CasesSymbols(cases, fc.bb, bb + 1, bid, bbb, sym, inner, scope);
    var x := FindBody(v, cases, fc.bb, bb + 1, bid, bbb, sym, inner, scope, fuel, env1, w.code, q);
    var c1 := ExprRuns(s.c, id, bb + 2, sym, env, w, c);
    RanAgain(w, c, c1, env1, sym, id, fc.id);
    var c2 := TestsRun(v, cases, fc.val, fc.id, fc.bb, bb + 1, x.p, env1, sym, id, w, c1, c1);
    ReachesTrans(w, c, c1, c2);
    AgreesShift(env1, scope, sym, x.sym, c2.slots);
    var c3 := CasesRun(x.cases, x.k, bb + 1, x.id, x.bb, x.sym, inner, x.scope, fuel, env1, w, c2);
    c' := c3;
    if r.OutOfFuel? {
      BusyBefore(w, c, c2, fuel);
    } else {
      ArrivedShift(w, c2, c3, q + |fb.code|, r.o, env1, r.env, scope, sym, x.sym, fb.sym, inner);
      CasesScope(x.cases, env1, fuel, x.scope);
      DeclaredOutsideCases(cases, scope);
      ArrivedLeaving(w, c2, c3, q + |fb.code|, r.o, env1, r.env, DeclaredInCases(cases), scope, sym, fb.sym, inner);
      c' := SwitchEnd(w, c, c2, c3, bb, q + |fb.code|, r.o, env, env1, Leave(env1, r.env, DeclaredInCases(cases)),
        scope, sym, fb.sym, ctx, inner);
    }
  }

  lemma RanAgain(w: World, c: Config, c1: Config, env: Env, sym: SymbolTable, id: nat, id1: nat)
    requires Ran(w, c, c1, c1.pc, env, sym, id) && Below(sym, id1)
    ensures Ran(w, c1, c1, c1.pc, env, sym, id1)
  {
    RanNothing(w, c1, env, sym, id1);
  }

  lemma {:induction false} CasesScope(cases: Cases, env: Env, fuel: nat, scope: set<string>)
    requires CasesSupported(cases, scope) && env.Keys <= scope
    ensures var r := ExecCases(cases, env, fuel); r.Done? ==> env.Keys <= r.env.Keys
    decreases cases
  {
    hide ExecList, ListSupported;
    match cases
    case Default(ss) => ListScope(ss, env, fuel, scope);
    case Case(_, ss, rest) =>
      ListScope(ss, env, fuel, scope);
      if ExecList(ss, env, fuel).Done? {
        CasesScope(rest, ExecList(ss, env, fuel).env, fuel, ScopeAfterList(ss, scope));
      }
  }

  /** The bodies ended: falling off their end or breaking leads behind the
      label at p, anything else leaves the switch. */
  lemma SwitchEnd(w: World, c: Config, c2: Config, c3: Config, end: nat, p: nat, o: Outcome, env: Env, env1: Env,
                  env2: Env,
                  scope: set<string>, sym: SymbolTable, sym': SymbolTable, ctx: Context,
                    inner: Context) returns (c': Config)
    requires UniqueLabels(w.code) && Reaches(w, c, c2) && Arrived(w, c2, c3, p, o, env1, env2, sym, sym', inner)
    requires inner == WithBreak(ctx, end) && At(w.code, p, [Label(end)])
    requires env.Keys == env1.Keys == env2.Keys && env.Keys <= scope && SameOn(scope, sym, sym')
    ensures Arrived(w, c, c', p + 1, EndBreak(o), env, env2, sym, sym', ctx)
  {
    hide Reaches, Agrees, At, UniqueLabels, SameOn;
    ReachesTrans(w, c, c2, c3);
    SeenAll(env2, env1.Keys);
    c' := c3;
    if o.Normal? || o.Broke? {
      if o.Normal? {
        c' := Pass(w, c, c3, end);
      } else {
        c' := Hop(w, c, c3, end, p);
      }
      ArrivedNormal(w, c, c', env, env2, scope, sym, sym', ctx);
    }
  }
}
