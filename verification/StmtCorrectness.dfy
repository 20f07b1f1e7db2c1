/** Lowered statements do what the source says, however the run ends. */
module StmtCorrectness {
  import opened Words
  import opened Source
  import opened IR
  import opened Lowering
  import opened ExprCorrectness

  // ---------------------------------------------------------------------
  // The statements lowering gets right
  // ---------------------------------------------------------------------

  function ScopeAfter(s: Stmt, scope: set<string>): set<string> {
    if s.Decl? then scope + {s.x} else scope
  }

  function ScopeAfterList(ss: Stmts, scope: set<string>): set<string> {
    match ss
    case Nil => scope
    case Cons(s, rest) => ScopeAfterList(rest, ScopeAfter(s, scope))
  }

  /** A `continue` in s belongs to a loop around s. */
  predicate Continues(s: Stmt) {
    match s
    case Continue => true
    case Compound(ss) => ListContinues(ss)
    case If(_, thn) => Continues(thn)
    case IfElse(_, thn, els) => Continues(thn) || Continues(els)
    case While(_, loop, own) => !own && Continues(loop)
    case Switch(_, cases) => CasesContinue(cases)
    case _ => false
  }

  predicate ListContinues(ss: Stmts) {
    match ss
    case Nil => false
    case Cons(s, rest) => Continues(s) || ListContinues(rest)
  }

  predicate CasesContinue(cases: Cases) {
    match cases
    case Default(ss) => ListContinues(ss)
    case Case(_, ss, rest) => ListContinues(ss) || CasesContinue(rest)
  }

  /** The last case, if there is one, has statements. */
  predicate LastHasBody(cases: Cases) {
    match cases
    case Default(_) => true
    case Case(_, ss, rest) => if rest.Default? then ss.Cons? else LastHasBody(rest)
  }

  /** No condition is an assignment of a comparison, no declaration shadows a
      variable in scope, a `continue` belongs to a `for`, and the last case of
      a switch has statements.  Declarations stand in statement lists or in
      the head of a `for`. */
  predicate Supported(s: Stmt, scope: set<string>) {
    match s
    case ExprStmt(e) => Safe(e)
    case Decl(x, init) => x !in scope && (init.Some? ==> Safe(init.value))
    case Compound(ss) => ListSupported(ss, scope)
    case If(c, thn) => Safe(c) && Testable(c) && !thn.Decl? && Supported(thn, scope)
    case IfElse(c, thn, els) =>
      Safe(c) && Testable(c) && !thn.Decl? && Supported(thn, scope) && !els.Decl? && Supported(els, scope)
    case While(c, loop, own) =>
      Safe(c) && Testable(c) && !loop.Decl? && (own ==> !Continues(loop)) && Supported(loop, scope)
    case For(start, c, step, loop) =>
      && (start.Decl? || start.ExprStmt?) && Supported(start, scope)
      && Safe(c) && Testable(c) && Safe(step)
      && !loop.Decl? && Supported(loop, ScopeAfter(start, scope))
    case Switch(c, cases) => Safe(c) && CasesSupported(cases, scope) && LastHasBody(cases)
    case Break => true
    case Continue => true
    case Return(ret) => ret.Some? ==> Safe(ret.value)
  }

  predicate ListSupported(ss: Stmts, scope: set<string>) {
    match ss
    case Nil => true
    case Cons(s, rest) => Supported(s, scope) && ListSupported(rest, ScopeAfter(s, scope))
  }

  predicate CasesSupported(cases: Cases, scope: set<string>) {
    match cases
    case Default(ss) => ListSupported(ss, scope)
    case Case(_, ss, rest) => ListSupported(ss, scope) && CasesSupported(rest, ScopeAfterList(ss, scope))
  }

  // ---------------------------------------------------------------------
  // Symbol tables and scopes
  // ---------------------------------------------------------------------

  /** Entries of the names in scope are the same. */
  ghost predicate SameOn(scope: set<string>, sym: SymbolTable, sym': SymbolTable) {
    forall x :: x in scope && x in sym ==> x in sym' && sym'[x] == sym[x]
  }

  lemma ScopeGrows(ss: Stmts, scope: set<string>)
    ensures scope <= ScopeAfterList(ss, scope)
  {
  }

  lemma SameOnTrans(scope: set<string>, scope1: set<string>, sym: SymbolTable, sym1: SymbolTable, sym2: SymbolTable)
    requires SameOn(scope, sym, sym1) && SameOn(scope1, sym1, sym2) && scope <= scope1
    ensures SameOn(scope, sym, sym2)
  {
  }

  /** Lowering keeps the entries of the names in scope, and every entry is
      below the id counter. */
  lemma {:induction false} StmtSymbols(s: Stmt, id: nat, bb: nat, sym: SymbolTable, ctx: Context, scope: set<string>)
    requires Supported(s, scope) && Below(sym, id)
    ensures var f := LowerStmt(s, id, bb, sym, ctx);
            SameOn(scope, sym, f.sym) && Below(f.sym, f.id)
    decreases s
  {
    hide Tested, BranchIfZero, IfCode, IfElseCode, WhileCode, ForCode, SwitchCode, ReturnCode, Lower, Safe, Testable;
    match s
    case Decl(x, init) =>
    case Compound(ss) => ListSymbols(ss, id, bb, sym, ctx, scope);
    case If(c, thn) =>
      var fc := Lower(c, id, bb + 1, sym);
      BelowLater(sym, id, IdAfterBranch(fc.val, fc.id));
      StmtSymbols(thn, IdAfterBranch(fc.val, fc.id), fc.bb + 1, sym, ctx, scope);
    case IfElse(c, thn, els) =>
      var fc := Lower(c, id, bb + 2, sym);
      var ft := LowerStmt(thn, IdAfterBranch(fc.val, fc.id), fc.bb + 1, sym, ctx);
      BelowLater(sym, id, IdAfterBranch(fc.val, fc.id));
      StmtSymbols(thn, IdAfterBranch(fc.val, fc.id), fc.bb + 1, sym, ctx, scope);
      StmtSymbols(els, ft.id, ft.bb, ft.sym, ctx, scope);
    case While(c, loop, _) =>
      var fc := Lower(c, id, bb + 3, sym);
      BelowLater(sym, id, IdAfterBranch(fc.val, fc.id));
      StmtSymbols(loop, IdAfterBranch(fc.val, fc.id), fc.bb, sym, WithBreak(ctx, bb + 2), scope);
    case For(start, c, step, loop) =>
      var f0 := LowerStmt(start, id, bb + 4, sym, ctx);
      var fc := Lower(c, f0.id, f0.bb, f0.sym);
      StmtSymbols(start, id, bb + 4, sym, ctx, scope);
      BelowLater(f0.sym, f0.id, IdAfterBranch(fc.val, fc.id));
      StmtSymbols(loop, IdAfterBranch(fc.val, fc.id), fc.bb, f0.sym, WithLoop(ctx, bb + 3, bb + 2),
        ScopeAfter(start, scope));
      var fs := LowerStmt(loop, IdAfterBranch(fc.val, fc.id), fc.bb, f0.sym, WithLoop(ctx, bb + 3, bb + 2));
      BelowLater(fs.sym, fs.id, Lower(step, fs.id, fs.bb, fs.sym).id);
      SameOnTrans(scope, ScopeAfter(start, scope), sym, f0.sym, fs.sym);
    case Switch(c, cases) =>
      var fc := Lower(c, id, bb + 2, sym);
      BelowLater(sym, id, fc.id + TestCount(cases));
      CasesSymbols(cases, fc.bb, bb + 1, fc.id + TestCount(cases), fc.bb + Bodies(cases), sym, WithBreak(ctx, bb),
        scope);
    case _ =>
  }

  lemma {:induction false} ListSymbols(ss: Stmts, id: nat, bb: nat, sym: SymbolTable, ctx: Context, scope: set<string>)
    requires ListSupported(ss, scope) && Below(sym, id)
    ensures var f := LowerList(ss, id, bb, sym, ctx);
            SameOn(scope, sym, f.sym) && Below(f.sym, f.id)
    decreases ss
  {
    match ss
    case Nil =>
    case Cons(s, rest) =>
      var g := LowerStmt(s, id, bb, sym, ctx);
      StmtSymbols(s, id, bb, sym, ctx, scope);
      ListSymbols(rest, g.id, g.bb, g.sym, ctx, ScopeAfter(s, scope));
      SameOnTrans(scope, ScopeAfter(s, scope), sym, g.sym, LowerList(rest, g.id, g.bb, g.sym, ctx).sym);
  }

  lemma {:induction false} CasesSymbols(cases: Cases, k: nat, default: nat, id: nat, bb: nat, sym: SymbolTable,
                                        ctx: Context, scope: set<string>)
    requires CasesSupported(cases, scope) && Below(sym, id)
    ensures var f := LowerCases(cases, k, default, id, bb, sym, ctx);
            SameOn(scope, sym, f.sym) && Below(f.sym, f.id)
    decreases cases
  {
    match cases
    case Default(ss) => ListSymbols(ss, id, bb, sym, ctx, scope);
    case Case(_, ss, rest) =>
      if ss.Nil? {
        CasesSymbols(rest, k, default, id, bb, sym, ctx, scope);
      } else {
        var g := LowerList(ss, id, bb, sym, ctx);
        var scope1 := ScopeAfterList(ss, scope);
        ScopeGrows(ss, scope);
        ListSymbols(ss, id, bb, sym, ctx, scope);
        CasesSymbols(rest, k + 1, default, g.id, g.bb, g.sym, ctx, scope1);
        SameOnTrans(scope, scope1, sym, g.sym, LowerCases(rest, k + 1, default, g.id, g.bb, g.sym, ctx).sym);
      }
  }

  /** Agreement does not depend on entries of names out of scope. */
  lemma AgreesShift(env: Env, scope: set<string>, sym: SymbolTable, sym': SymbolTable, slots: map<nat, int>)
    requires env.Keys <= scope && SameOn(scope, sym, sym') && env.Keys <= sym.Keys
    ensures Agrees(env, sym, slots) <==> Agrees(env, sym', slots)
  {
    assert forall x :: x in env ==> x in sym' && sym'[x] == sym[x];
  }

  // ---------------------------------------------------------------------
  // Scopes of a run
  // ---------------------------------------------------------------------

  /** A run only adds the names its list declares. */
  lemma {:induction false} ExecScope(s: Stmt, env: Env, fuel: nat, scope: set<string>)
    requires Supported(s, scope) && env.Keys <= scope
    ensures var r := Exec(s, env, fuel);
            r.Done? ==> env.Keys <= r.env.Keys <= ScopeAfter(s, scope) && (!s.Decl? ==> r.env.Keys == env.Keys)
    decreases fuel, s, 0
  {
    hide Safe, Testable, Leave, Declared, DeclaredInCases;
    match s
    case ExprStmt(e) => EvalKeepsScope(e, env);
    case Decl(x, init) =>
      if init.Some? { EvalKeepsScope(init.value, env); }
    case Compound(ss) =>
    case If(c, thn) =>
      EvalKeepsScope(c, env);
      if Eval(c, env).Value? { ExecScope(thn, Eval(c, env).env, fuel, scope); }
    case IfElse(c, thn, els) =>
      EvalKeepsScope(c, env);
      if Eval(c, env).Value? {
        ExecScope(thn, Eval(c, env).env, fuel, scope);
        ExecScope(els, Eval(c, env).env, fuel, scope);
      }
    case While(c, loop, _) =>
      EvalKeepsScope(c, env);
      if Eval(c, env).Value? {
        var env1 := Eval(c, env).env;
        ExecScope(loop, env1, fuel, scope);
        var r := Exec(loop, env1, fuel);
        if r.Done? && fuel > 0 { ExecScope(s, r.env, fuel - 1, scope); }
      }
    case For(_, _, _, _) =>
    case Switch(c, _) => EvalKeepsScope(c, env);
    case Break =>
    case Continue =>
    case Return(ret) =>
      if ret.Some? { EvalKeepsScope(ret.value, env); }
  }

  lemma {:induction false} ListScope(ss: Stmts, env: Env, fuel: nat, scope: set<string>)
    requires ListSupported(ss, scope) && env.Keys <= scope
    ensures var r := ExecList(ss, env, fuel);
            r.Done? ==> env.Keys <= r.env.Keys <= ScopeAfterList(ss, scope)
    decreases ss
  {
    match ss
    case Nil =>
    case Cons(s, rest) =>
      ExecScope(s, env, fuel, scope);
      var r := Exec(s, env, fuel);
      if r.Done? {
        ListScope(rest, r.env, fuel, ScopeAfter(s, scope));
        ScopeGrows(rest, ScopeAfter(s, scope));
      }
  }

  /** A `continue` that s does not contain does not escape from s. */
  lemma {:induction false} NoContinue(s: Stmt, env: Env, fuel: nat)
    requires !Continues(s)
    ensures var r := Exec(s, env, fuel); r.Done? ==> !r.o.Continued?
    decreases fuel, s, 0
  {
    hide Eval, Leave, Declared, DeclaredInCases;
    match s
    case Compound(ss) => ListNoContinue(ss, env, fuel);
    case If(c, thn) =>
      if Eval(c, env).Value? { NoContinue(thn, Eval(c, env).env, fuel); }
    case IfElse(c, thn, els) =>
      if Eval(c, env).Value? {
        NoContinue(thn, Eval(c, env).env, fuel);
        NoContinue(els, Eval(c, env).env, fuel);
      }
    case While(c, loop, _) =>
      if Eval(c, env).Value? {
        var r := Exec(loop, Eval(c, env).env, fuel);
        if !s.own { NoContinue(loop, Eval(c, env).env, fuel); }
        if r.Done? && fuel > 0 { NoContinue(s, r.env, fuel - 1); }
      }
    case For(start, c, step, loop) =>
      if Exec(start, env, fuel).Done? { ForNoContinue(c, step, loop, Exec(start, env, fuel).env, fuel); }
    case Switch(c, cases) =>
      if Eval(c, env).Value? { SwitchNoContinue(Eval(c, env).v, cases, Eval(c, env).env, fuel); }
    case _ =>
  }

  lemma {:induction false} ListNoContinue(ss: Stmts, env: Env, fuel: nat)
    requires !ListContinues(ss)
    ensures var r := ExecList(ss, env, fuel); r.Done? ==> !r.o.Continued?
    decreases fuel, ss, 0
  {
    match ss
    case Nil =>
    case Cons(s, rest) =>
      NoContinue(s, env, fuel);
      if Exec(s, env, fuel).Done? { ListNoContinue(rest, Exec(s, env, fuel).env, fuel); }
  }

  lemma {:induction false} ForNoContinue(c: Expr, step: Expr, loop: Stmt, env: Env, fuel: nat)
    ensures var r := ExecFor(c, step, loop, env, fuel); r.Done? ==> !r.o.Continued?
    decreases fuel
  {
    if Eval(c, env).Value? && fuel > 0 {
      var r := Exec(loop, Eval(c, env).env, fuel);
      if r.Done? && Eval(step, r.env).Value? {
        ForNoContinue(c, step, loop, Eval(step, r.env).env, fuel - 1);
      }
    }
  }

  lemma {:induction false} SwitchNoContinue(v: int, cases: Cases, env: Env, fuel: nat)
    requires !CasesContinue(cases)
    ensures var r := ExecSwitch(v, cases, env, fuel); r.Done? ==> !r.o.Continued?
    decreases fuel, cases, 1
  {
    match cases
    case Default(_) => CasesNoContinue(cases, env, fuel);
    case Case(k, _, rest) =>
      CasesNoContinue(cases, env, fuel);
      SwitchNoContinue(v, rest, env, fuel);
  }

  lemma {:induction false} CasesNoContinue(cases: Cases, env: Env, fuel: nat)
    requires !CasesContinue(cases)
    ensures var r := ExecCases(cases, env, fuel); r.Done? ==> !r.o.Continued?
    decreases fuel, cases, 0
  {
    match cases
    case Default(ss) => ListNoContinue(ss, env, fuel);
    case Case(_, ss, rest) =>
      ListNoContinue(ss, env, fuel);
      if ExecList(ss, env, fuel).Done? { CasesNoContinue(rest, ExecList(ss, env, fuel).env, fuel); }
  }

  // ---------------------------------------------------------------------
  // Where a statement's run arrives
  // ---------------------------------------------------------------------

  /** The machine is at the exit of a `return` of v: the value is in the merge
      slot and the jump to the return block is next, or the return itself is. */
  ghost predicate Exits(w: World, c: Config, ctx: Context, v: Option<int>) {
    if v.None? || ctx.isVoid then
      At(w.code, c.pc, [if ctx.merge.Some? then JumpToReturn else Ret(None)])
    else if ctx.merge.Some? then
      && At(w.code, c.pc, [JumpToReturn])
      && ctx.merge.value in c.slots && c.slots[ctx.merge.value] == v.value
    else
      exists o :: At(w.code, c.pc, [Ret(Some(o))]) && Read(w, o, c) == v
  }

  /** The part of env that belongs to the given names. */
  function Seen(env: Env, names: set<string>): Env {
    map x | x in env && x in names :: env[x]
  }

  /** The source started in env and ended in env' with outcome o.  The machine
      went from c to c': to the end of the code after a normal end, otherwise
      to the jump or return that leaves it.  The variables in scope at the
      start agree, after a normal end also those declared since. */
  ghost predicate Arrived(w: World, c: Config, c': Config, end: nat, o: Outcome, env: Env, env': Env,
                          sym: SymbolTable, sym': SymbolTable, ctx: Context) {
    && Reaches(w, c, c')
    && (!o.Returned? ==> Agrees(Seen(env', env.Keys), sym, c'.slots))
    && match o
       case Normal => c'.pc == end && Agrees(env', sym', c'.slots)
       case Broke => At(w.code, c'.pc, [Jump(Last(ctx.breaks))])
       case Continued => At(w.code, c'.pc, [Jump(Last(ctx.increments))])
       case Returned(v) => Exits(w, c', ctx, v)
  }

  /** The machine follows the source: it arrives where the source does, and is
      busy at least as long as the source uses up fuel. */
  ghost predicate Follows(w: World, c: Config, c': Config, end: nat, r: ExecResult, fuel: nat, env: Env,
                          sym: SymbolTable, sym': SymbolTable, ctx: Context) {
    match r
    case Wrong => true
    case OutOfFuel => Busy(w, c, fuel)
    case Done(o, env') => Arrived(w, c, c', end, o, env, env', sym, sym', ctx)
  }

  lemma SeenAll(env: Env, names: set<string>)
    requires env.Keys <= names
    ensures Seen(env, names) == env
  {
  }

  /** A jump to the block at p, and past its label. */
  lemma Hop(w: World, c0: Config, c: Config, bb: nat, p: nat) returns (c': Config)
    requires UniqueLabels(w.code) && Reaches(w, c0, c)
    requires At(w.code, c.pc, [Jump(bb)]) && At(w.code, p, [Label(bb)])
    ensures Reaches(w, c0, c') && c'.pc == p + 1 && c'.slots == c.slots
    ensures c.pc < p ==> c' == c.(pc := p + 1)
  {
    AtIndex(w.code, c.pc, [Jump(bb)], 0);
    AtIndex(w.code, p, [Label(bb)], 0);
    FindLabel(w.code, bb, p);
    var c1 := Do(w, c0, c);
    c' := Do(w, c0, c1);
  }

  lemma Pass(w: World, c0: Config, c: Config, bb: nat) returns (c': Config)
    requires Reaches(w, c0, c) && At(w.code, c.pc, [Label(bb)])
    ensures Reaches(w, c0, c') && c' == c.(pc := c.pc + 1)
  {
    AtIndex(w.code, c.pc, [Label(bb)], 0);
    c' := Do(w, c0, c);
  }

  /** A normal end of a statement that declares nothing. */
  lemma ArrivedNormal(w: World, c: Config, c': Config, env: Env, env': Env, scope: set<string>,
                      sym: SymbolTable, sym': SymbolTable, ctx: Context)
    requires Reaches(w, c, c') && Agrees(env', sym, c'.slots)
    requires env'.Keys == env.Keys <= scope && SameOn(scope, sym, sym')
    ensures Arrived(w, c, c', c'.pc, Normal, env, env', sym, sym', ctx)
  {
    SeenAll(env', env.Keys);
    AgreesShift(env', scope, sym, sym', c'.slots);
  }

  /** The run of a part that declares nothing, seen from an earlier start. */
  lemma ArrivedFrom(w: World, c: Config, c1: Config, c': Config, end: nat, end': nat, o: Outcome, env: Env, env1: Env,
                    env': Env,
                    sym: SymbolTable, sym1: SymbolTable, sym': SymbolTable, ctx: Context)
    requires Reaches(w, c, c1) && Arrived(w, c1, c', end, o, env1, env', sym, sym1, ctx)
    requires env.Keys == env1.Keys && !o.Normal?
    ensures Arrived(w, c, c', end', o, env, env', sym, sym', ctx)
  {
    ReachesTrans(w, c, c1, c');
  }

  /** Two consecutive parts of a list. */
  lemma ArrivedSeq(w: World, c: Config, c1: Config, c': Config, end: nat, o: Outcome, env: Env, env1: Env, env': Env,
                   scope: set<string>, sym: SymbolTable, sym1: SymbolTable, sym': SymbolTable, ctx: Context)
    requires Reaches(w, c, c1) && Arrived(w, c1, c', end, o, env1, env', sym1, sym', ctx)
    requires env.Keys <= env1.Keys && env.Keys <= scope && env.Keys <= sym.Keys && SameOn(scope, sym, sym1)
    ensures Arrived(w, c, c', end, o, env, env', sym, sym', ctx)
  {
    hide Reaches;
    ReachesTrans(w, c, c1, c');
    if !o.Returned? {
      AgreesLess(Seen(env', env1.Keys), env.Keys, sym1, c'.slots);
      assert Seen(Seen(env', env1.Keys), env.Keys) == Seen(env', env.Keys);
      AgreesShift(Seen(env', env.Keys), scope, sym, sym1, c'.slots);
    }
  }

  lemma AgreesLess(env: Env, names: set<string>, sym: SymbolTable, slots: map<nat, int>)
    requires Agrees(env, sym, slots)
    ensures Agrees(Seen(env, names), sym, slots)
  {
  }

  lemma {:induction false} DeclaredOutside(ss: Stmts, scope: set<string>)
    requires ListSupported(ss, scope)
    ensures Declared(ss) !! scope
  {
    match ss
    case Nil =>
    case Cons(s, rest) => DeclaredOutside(rest, ScopeAfter(s, scope));
  }

  lemma {:induction false} DeclaredOutsideCases(cases: Cases, scope: set<string>)
    requires CasesSupported(cases, scope)
    ensures DeclaredInCases(cases) !! scope
  {
    match cases
    case Default(ss) => DeclaredOutside(ss, scope);
    case Case(_, ss, rest) =>
      DeclaredOutside(ss, scope);
      ScopeGrows(ss, scope);
      DeclaredOutsideCases(rest, ScopeAfterList(ss, scope));
  }

  /** Leaving a scope whose names shadow nothing only forgets them. */
  lemma ArrivedLeaving(w: World, c: Config, c': Config, end: nat, o: Outcome, env: Env, env': Env,
                       declared: set<string>,
                       scope: set<string>, sym: SymbolTable, sym': SymbolTable, ctx: Context)
    requires Arrived(w, c, c', end, o, env, env', sym, sym', ctx)
    requires env.Keys <= env'.Keys && env.Keys <= scope && declared !! scope
    requires SameOn(scope, sym, sym') && env.Keys <= sym.Keys
    ensures Arrived(w, c, c', end, o, env, Leave(env, env', declared), sym, sym', ctx)
  {
    hide Reaches;
    var left := Leave(env, env', declared);
    assert left == Seen(env', env.Keys);
    SeenAll(left, env.Keys);
    if !o.Returned? {
      AgreesShift(left, scope, sym, sym', c'.slots);
    }
  }
}
