/** The code of a function ends exactly when the source does. */
module Divergence {
  import opened Words
  import opened Source
  import opened IR
  import opened Lowering
  import opened ExprCorrectness
  import opened StmtCorrectness
  import opened StmtRuns
  import opened Functions

  // ---------------------------------------------------------------------
  // Fuel
  // ---------------------------------------------------------------------

  /** What a run comes to does not depend on the fuel left over. */
  lemma {:induction false} MoreFuel(s: Stmt, env: Env, fuel: nat, more: nat)
    requires fuel <= more && !Exec(s, env, fuel).OutOfFuel?
    ensures Exec(s, env, more) == Exec(s, env, fuel)
    decreases fuel, s, 0
  {
    hide Eval, Leave, Declared, DeclaredInCases;
    match s
    case Compound(ss) => MoreFuelList(ss, env, fuel, more);
    case If(c, thn) =>
      if Eval(c, env).Value? && Eval(c, env).v != 0 { MoreFuel(thn, Eval(c, env).env, fuel, more); }
    case IfElse(c, thn, els) =>
      if Eval(c, env).Value? { MoreFuel(if Eval(c, env).v != 0 then thn else els, Eval(c, env).env, fuel, more); }
    case While(c, loop, own) =>
      if Eval(c, env).Value? && Eval(c, env).v != 0 {
        MoreFuel(loop, Eval(c, env).env, fuel, more);
        var r := Exec(loop, Eval(c, env).env, fuel);
        if r.Done? && (r.o.Normal? || (r.o.Continued? && own)) { MoreFuel(s, r.env, fuel - 1, more - 1); }
      }
    case For(start, c, step, loop) =>
      MoreFuel(start, env, fuel, more);
      var r := Exec(start, env, fuel);
      if r.Done? { MoreFuelFor(c, step, loop, r.env, fuel, more); }
    case Switch(c, cases) =>
      if Eval(c, env).Value? { MoreFuelSwitch(Eval(c, env).v, cases, Eval(c, env).env, fuel, more); }
    case _ =>
  }

  lemma {:induction false} MoreFuelList(ss: Stmts, env: Env, fuel: nat, more: nat)
    requires fuel <= more && !ExecList(ss, env, fuel).OutOfFuel?
    ensures ExecList(ss, env, more) == ExecList(ss, env, fuel)
    decreases fuel, ss, 0
  {
    if ss.Cons? {
      MoreFuel(ss.head, env, fuel, more);
      var r := Exec(ss.head, env, fuel);
      if r.Done? && r.o.Normal? { MoreFuelList(ss.tail, r.env, fuel, more); }
    }
  }

  lemma {:induction false} MoreFuelFor(c: Expr, step: Expr, loop: Stmt, env: Env, fuel: nat, more: nat)
    requires fuel <= more && !ExecFor(c, step, loop, env, fuel).OutOfFuel?
    ensures ExecFor(c, step, loop, env, more) == ExecFor(c, step, loop, env, fuel)
    decreases fuel, loop, 1
  {
    hide Eval, Exec, ExecFor;
    ForRound(c, step, loop, env, fuel);
    ForRound(c, step, loop, env, more);
    if Eval(c, env).Value? && Eval(c, env).v != 0 {
      MoreFuel(loop, Eval(c, env).env, fuel, more);
      var r := Exec(loop, Eval(c, env).env, fuel);
      if r.Done? && (r.o.Normal? || r.o.Continued?) && Eval(step, r.env).Value? {
        MoreFuelFor(c, step, loop, Eval(step, r.env).env, fuel - 1, more - 1);
      }
    }
  }

  /** One round of a `for`. */
  lemma ForRound(c: Expr, step: Expr, loop: Stmt, env: Env, fuel: nat)
    ensures ExecFor(c, step, loop, env, fuel) ==
            match Eval(c, env)
            case Undefined => Wrong
            case Value(v, env1) =>
              if v == 0 then Done(Normal, env1)
              else
                var r := Exec(loop, env1, fuel);
                if r.Done? && (r.o.Normal? || r.o.Continued?) then
                  match Eval(step, r.env)
                  case Undefined => Wrong
                  case Value(_, env3) => if fuel == 0 then OutOfFuel else ExecFor(c, step, loop, env3, fuel - 1)
                else if r.Done? then Done(EndBreak(r.o), r.env)
                else r
  {
    hide Eval, Exec;
  }

  lemma {:induction false} MoreFuelSwitch(v: int, cases: Cases, env: Env, fuel: nat, more: nat)
    requires fuel <= more && !ExecSwitch(v, cases, env, fuel).OutOfFuel?
    ensures ExecSwitch(v, cases, env, more) == ExecSwitch(v, cases, env, fuel)
    decreases fuel, cases, 1
  {
    if cases.Default? || v == Wrap(cases.k) {
      MoreFuelCases(cases, env, fuel, more);
    } else {
      MoreFuelSwitch(v, cases.rest, env, fuel, more);
    }
  }

  lemma {:induction false} MoreFuelCases(cases: Cases, env: Env, fuel: nat, more: nat)
    requires fuel <= more && !ExecCases(cases, env, fuel).OutOfFuel?
    ensures ExecCases(cases, env, more) == ExecCases(cases, env, fuel)
    decreases fuel, cases, 0
  {
    MoreFuelList(cases.stmts, env, fuel, more);
    if cases.Case? {
      var r := ExecList(cases.stmts, env, fuel);
      if r.Done? && r.o.Normal? { MoreFuelCases(cases.rest, r.env, fuel, more); }
    }
  }

  // ---------------------------------------------------------------------
  // Functions
  // ---------------------------------------------------------------------

  /** A source run that needs more fuel keeps the machine busy for as long. */
  lemma FunctionKeepsBusy(f: Function, args: seq<int>, fuel: nat, regs: map<nat, int>, slots: map<nat, int>)
    requires Callable(f, args) && Call(f, args, fuel).OutOfFuel?
    ensures Busy(World(LowerFunction(f), LowerBody(f).bb, args), Start(regs, slots), fuel)
  {
    hide LowerBody, Callable, Call;
    var c' := BodyRuns(f, args, fuel, regs, slots);
    FinishedSteps(f, args, Start(regs, slots), fuel);
  }

  lemma FinishedSteps(f: Function, args: seq<int>, c: Config, n: nat)
    ensures Busy(World(LowerFunction(f), LowerBody(f).bb, args), c, n)
            <==> Busy(World(Unpatched(f), LowerBody(f).bb, args), c, n)
  {
    hide Unpatched, LowerBody;
    if Merges(f) { PatchedRun(Unpatched(f), LowerBody(f).bb, args, c, n); }
  }

  /** Code without jumps comes to a stop. */
  lemma {:induction false} StraightStops(w: World, c0: Config, c: Config)
    requires Reaches(w, c0, c)
    requires forall i :: c.pc <= i < |w.code| ==> !w.code[i].Jump? && !w.code[i].JumpToReturn? && !w.code[i].Branch?
    ensures exists n: nat :: !Busy(w, c0, n)
    decreases |w.code| - c.pc
  {
    hide Reaches;
    if Step(w, c) == None {
      StoppedIsNotBusy(w, c0, c);
    } else {
      ReachesStep(w, c0, c, Step(w, c).value);
      StraightStops(w, c0, Step(w, c).value);
    }
  }

  lemma EpilogueIsLast(f: Function, w: World, q: nat)
    requires w.code == Unpatched(f) && At(w.code, q, Epilogue(f)) && q + |Epilogue(f)| == |w.code|
    ensures forall i :: q <= i < |w.code| ==> !w.code[i].Jump? && !w.code[i].JumpToReturn? && !w.code[i].Branch?
  {
    hide Unpatched, LowerBody, At;
    forall i | q <= i < |w.code|
      ensures w.code[i] == Epilogue(f)[i - q]
    {
      AtIndex(w.code, q, Epilogue(f), i - q);
    }
  }

  /** A body that ends, at its end or by a return, ends the machine's run. */
  lemma BodyStops(f: Function, args: seq<int>, fuel: nat, regs: map<nat, int>, slots: map<nat, int>)
    requires Called(f, args, fuel) && (CallOutcome(f, args, fuel).Normal? || CallOutcome(f, args, fuel).Returned?)
    ensures exists n: nat :: !Busy(World(Unpatched(f), LowerBody(f).bb, args), Start(regs, slots), n)
  {
    hide Reaches, LowerBody, Supported, Distinct, Call, Unpatched, Epilogue, At, Busy, Step, LowerParams, UniqueLabels;
    var w := World(Unpatched(f), LowerBody(f).bb, args);
    var c := Start(regs, slots);
    var o := CallOutcome(f, args, fuel);
    var c1 := BodyRuns(f, args, fuel, regs, slots);
    var q := 1 + |LowerParams(f.params, 0, 0, map[]).code| + |LowerBody(f).code|;
    FunctionLayout(f);
    if o.Normal? {
      EpilogueIsLast(f, w, c1.pc);
      StraightStops(w, c, c1);
    } else if Merges(f) && At(w.code, c1.pc, [JumpToReturn]) {
      AtReturnBlock(f, w, q);
      var c2 := ReturnJump(w, c, c1, q);
      EpilogueIsLast(f, w, q);
      StraightStops(w, c, c2);
    } else {
      StopsAtReturn(f, w, c1, o.v);
      StoppedIsNotBusy(w, c, c1);
    }
  }

  lemma AtReturnBlock(f: Function, w: World, q: nat)
    requires Merges(f) && At(w.code, q, Epilogue(f))
    ensures At(w.code, q, [Label(LowerBody(f).bb)])
  {
    hide At, LowerBody;
    AtOne(w.code, q, Epilogue(f), 0);
  }

  lemma StopsAtReturn(f: Function, w: World, c: Config, v: Option<int>)
    requires Exits(w, c, BodyContext(f), v) && !(Merges(f) && At(w.code, c.pc, [JumpToReturn]))
    ensures Step(w, c) == None
  {
    hide At;
    if v.None? || f.isVoid {
      AtIndex(w.code, c.pc, [Ret(None)], 0);
    } else {
      var o :| At(w.code, c.pc, [Ret(Some(o))]) && Read(w, o, c) == v;
      AtIndex(w.code, c.pc, [Ret(Some(o))], 0);
    }
  }

  /** The source never does anything undefined and never breaks out of the
      function. */
  ghost predicate Behaves(f: Function, args: seq<int>)
    requires |args| == |f.params|
  {
    forall fuel: nat ::
      var r := Call(f, args, fuel);
      r.OutOfFuel? || (r.Done? && (r.o.Normal? || r.o.Returned?))
  }

  /** The code runs forever exactly if the source does. */
  lemma RunsForeverExactly(f: Function, args: seq<int>, regs: map<nat, int>, slots: map<nat, int>)
    requires Callable(f, args) && Behaves(f, args)
    ensures (forall n: nat :: Busy(World(LowerFunction(f), LowerBody(f).bb, args), Start(regs, slots), n))
            <==> (forall fuel: nat :: Call(f, args, fuel).OutOfFuel?)
  {
    hide LowerBody, Busy, LowerFunction, Unpatched, Call, Supported, Distinct;
    var w := World(LowerFunction(f), LowerBody(f).bb, args);
    if fuel: nat :| !Call(f, args, fuel).OutOfFuel? {
      BodyStops(f, args, fuel, regs, slots);
      var n: nat :| !Busy(World(Unpatched(f), LowerBody(f).bb, args), Start(regs, slots), n);
      FinishedSteps(f, args, Start(regs, slots), n);
    } else {
      forall n: nat ensures Busy(w, Start(regs, slots), n) { FunctionKeepsBusy(f, args, n, regs, slots); }
    }
  }
}
