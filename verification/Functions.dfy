/** Whole functions: parameters, the merging of several returns, and the
    correctness and well-formedness of the finished listing. */
module Functions {
  import opened Words
  import opened Source
  import opened IR
  import opened Lowering
  import opened ExprCorrectness
  import opened StmtCorrectness
  import opened StmtRuns
  import opened Blocks
  import opened Targets

  datatype Function = Function(params: seq<string>, isVoid: bool, body: Stmt)

  /** The parser counts the return statements of a function. */
  function Returns(s: Stmt): nat {
    match s
    case Return(_) => 1
    case Compound(ss) => ListReturns(ss)
    case If(_, thn) => Returns(thn)
    case IfElse(_, thn, els) => Returns(thn) + Returns(els)
    case While(_, loop, _) => Returns(loop)
    case For(start, _, _, loop) => Returns(start) + Returns(loop)
    case Switch(_, cases) => CasesReturns(cases)
    case _ => 0
  }

  function ListReturns(ss: Stmts): nat {
    match ss
    case Nil => 0
    case Cons(s, rest) => Returns(s) + ListReturns(rest)
  }

  function CasesReturns(cases: Cases): nat {
    match cases
    case Default(ss) => ListReturns(ss)
    case Case(_, ss, rest) => ListReturns(ss) + CasesReturns(rest)
  }

  // ---------------------------------------------------------------------
  // Lowering
  // ---------------------------------------------------------------------

  /** Each parameter from the k-th on gets a slot and is stored to it.  The
      parameter itself takes an id of its own. */
  function LowerParams(params: seq<string>, k: nat, id: nat, sym: SymbolTable): (f: StmtFrag)
    requires k <= |params|
    ensures f.id == id + 2 * (|params| - k) && f.bb == 1
    decreases |params| - k
  {
    if k == |params| then StmtFrag([], id, 1, sym, [])
    else
      var g := LowerParams(params, k + 1, id + 2, sym[params[k] := id]);
      StmtFrag([Store(Param(k), id)] + g.code, g.id, g.bb, g.sym, [id] + g.allocs)
  }

  function ParamScope(f: Function): set<string> {
    set x | x in f.params
  }

  predicate Merges(f: Function) {
    Returns(f.body) > 1 && !f.isVoid
  }

  function MergeSlot(f: Function): nat { 2 * |f.params| }

  function BodyContext(f: Function): Context {
    Context([], [], f.isVoid, if Merges(f) then Some(MergeSlot(f)) else None)
  }

  function LowerBody(f: Function): StmtFrag {
    var p := LowerParams(f.params, 0, 0, map[]);
    LowerStmt(f.body, if Merges(f) then p.id + 1 else p.id, 1, p.sym, BodyContext(f))
  }

  /** The code behind the body. */
  function Epilogue(f: Function): seq<Instr> {
    var b := LowerBody(f);
    if Merges(f) then [Label(b.bb), Load(b.id, MergeSlot(f)), Ret(Some(Reg(b.id)))]
    else if Returns(f.body) == 0 && f.isVoid then [Ret(None)]
    else []
  }

  /** The listing before null jumps are patched. */
  function Unpatched(f: Function): seq<Instr> {
    [Label(0)] + LowerParams(f.params, 0, 0, map[]).code + LowerBody(f).code + Epilogue(f)
  }

  function BlockCount(f: Function): nat {
    LowerBody(f).bb + (if Merges(f) then 1 else 0)
  }

  /** The finished listing. */
  function LowerFunction(f: Function): seq<Instr> {
    if Merges(f) then Patch(Unpatched(f), LowerBody(f).bb) else Unpatched(f)
  }

  // ---------------------------------------------------------------------
  // Well-formedness
  // ---------------------------------------------------------------------

  lemma {:induction false} ParamsHaveNoBlocks(params: seq<string>, k: nat, id: nat, sym: SymbolTable, bb: nat)
    requires k <= |params|
    ensures var f := LowerParams(params, k, id, sym); Count(f.code, bb) == 0 && GoesAll(f.code, 0, 0, {})
    decreases |params| - k
  {
    hide Count, GoesAll;
    if k < |params| {
      var rest := LowerParams(params, k + 1, id + 2, sym[params[k] := id]);
      ParamsHaveNoBlocks(params, k + 1, id + 2, sym[params[k] := id], bb);
      CountNone(Param(k), id, bb);
      StoreGoes(Param(k), id);
      CountAppend([Store(Param(k), id)], rest.code, bb);
      GoesAppend([Store(Param(k), id)], rest.code, 0, 0, {});
    } else {
      NothingGoes(bb);
    }
  }

  lemma StoreGoes(o: Operand, slot: nat)
    ensures GoesAll([Store(o, slot)], 0, 0, {})
  {
  }

  lemma NothingGoes(bb: nat)
    ensures Count([], bb) == 0 && GoesAll([], 0, 0, {})
  {
  }

  lemma EpilogueBlocks(f: Function, bb: nat)
    ensures Count(Epilogue(f), bb) == Once(Merges(f) && bb == LowerBody(f).bb)
    ensures GoesAll(Epilogue(f), 0, 0, {})
  {
    hide LowerBody;
  }

  /** Every allocated block is in the listing exactly once. */
  lemma FunctionBlocks(f: Function, bb: nat)
    ensures Count(LowerFunction(f), bb) == Count(Unpatched(f), bb) == Once(bb < BlockCount(f))
  {
    hide LowerBody, Count, Epilogue, LowerParams;
    var p, b := LowerParams(f.params, 0, 0, map[]), LowerBody(f);
    ParamsHaveNoBlocks(f.params, 0, 0, map[], bb);
    BodyBlocksOnce(f, bb);
    EpilogueBlocks(f, bb);
    CountOne(0, bb);
    CountAppend4([Label(0)], p.code, b.code, Epilogue(f), bb);
    if Merges(f) {
      CountSame(LowerFunction(f), Unpatched(f), bb);
    }
  }

  lemma BodyBlocksOnce(f: Function, bb: nat)
    ensures HasOnce(LowerBody(f).code, 1, LowerBody(f).bb, bb) && 1 <= LowerBody(f).bb
  {
    hide LowerStmt, LowerParams, HasOnce;
    var p := LowerParams(f.params, 0, 0, map[]);
    StmtBlocks(f.body, if Merges(f) then p.id + 1 else p.id, 1, p.sym, BodyContext(f), bb);
  }

  /** Function lowering is well formed: no null jump is left, and every jump
      and branch of the finished listing targets a block that was inserted
      exactly once. */
  lemma FunctionWellFormed(f: Function, i: nat)
    requires Supported(f.body, ParamScope(f)) && !Breaks(f.body) && !Continues(f.body)
    requires i < |LowerFunction(f)|
    ensures var code := LowerFunction(f);
            && !code[i].JumpToReturn?
            && (code[i].Jump? || code[i].Branch? ==> Count(code, code[i].bb) == 1)
  {
    hide LowerBody, Epilogue, LowerParams, Supported, Count;
    var p, b := LowerParams(f.params, 0, 0, map[]), LowerBody(f);
    var n := BlockCount(f);
    var out := NullTarget(BodyContext(f));
    ParamsHaveNoBlocks(f.params, 0, 0, map[], 0);
    EpilogueBlocks(f, 0);
    BodyBlocksOnce(f, 0);
    BodyTargets(f);
    GoesWider(p.code, 0, 0, {}, 0, n, out);
    GoesWider(Epilogue(f), 0, 0, {}, 0, n, out);
    GoesWider(b.code, 1, b.bb, out, 0, n, out);
    LabelGoes(0, 0, n, out);
    GoesAppend5([Label(0)], p.code, b.code, Epilogue(f), [], 0, n,
      out) by { SimpleGoes(0, 0, 0, true); GoesWider([], 0, 0, {}, 0, n, out); }
    assert Goes(Unpatched(f)[i], 0, n, out);
    var instr := LowerFunction(f)[i];
    if instr.Jump? || instr.Branch? {
      FunctionBlocks(f, instr.bb);
    }
  }

  lemma BodyTargets(f: Function)
    requires Supported(f.body, ParamScope(f)) && !Breaks(f.body) && !Continues(f.body)
    ensures GoesAll(LowerBody(f).code, 1, LowerBody(f).bb, NullTarget(BodyContext(f)))
  {
    hide LowerStmt, LowerParams, GoesAll, Supported;
    var p := LowerParams(f.params, 0, 0, map[]);
    StmtTargets(f.body, if Merges(f) then p.id + 1 else p.id, 1, p.sym, BodyContext(f), ParamScope(f));
  }

  // ---------------------------------------------------------------------
  // Correctness
  // ---------------------------------------------------------------------

  /** The environment in which the body starts. */
  function Bind(params: seq<string>, args: seq<int>, k: nat, env: Env): Env
    requires k <= |params| == |args|
    decreases |params| - k
  {
    if k == |params| then env else Bind(params, args, k + 1, env[params[k] := Some(args[k])])
  }

  predicate Distinct(names: seq<string>) {
    forall i, j :: 0 <= i < j < |names| ==> names[i] != names[j]
  }

  lemma {:induction false} BindScope(params: seq<string>, args: seq<int>, k: nat, env: Env)
    requires k <= |params| == |args|
    ensures Bind(params, args, k, env).Keys == env.Keys + set i | k <= i < |params| :: params[i]
    decreases |params| - k
  {
    if k < |params| {
      BindScope(params, args, k + 1, env[params[k] := Some(args[k])]);
    }
  }

  /** The parameters are stored to their slots. */
  lemma {:induction false} ParamsRun(params: seq<string>, k: nat, id: nat, sym: SymbolTable, env: Env, w: World,
                                     c0: Config, c: Config)
    returns (c': Config)
    requires k <= |params| == |w.args| && Distinct(params) && forall i :: k <= i < |params| ==> params[i] !in env
    requires Reaches(w, c0, c) && At(w.code, c.pc, LowerParams(params, k, id, sym).code)
    requires Agrees(env, sym, c.slots) && Below(sym, id)
    ensures var f := LowerParams(params, k, id, sym);
            && Reaches(w, c0, c') && c'.pc == c.pc + |f.code|
            && Agrees(Bind(params, w.args, k, env), f.sym, c'.slots) && Below(f.sym, f.id)
    decreases |params| - k
  {
    hide Reaches, Agrees, At, Step;
    c' := c;
    if k < |params| {
      var x, v := params[k], w.args[k];
      var g := LowerParams(params, k + 1, id + 2, sym[x := id]);
      AtAppend(w.code, c.pc, [Store(Param(k), id)], g.code);
      var c1 := StoreAnywhere(w, c0, c, Param(k), id, v);
      AgreesTemporary(env, sym, c.slots, id, v);
      AgreesDeclare(env, sym, c1.slots, x, id, Some(v));
      c' := ParamsRun(params, k + 1, id + 2, sym[x := id], env[x := Some(v)], w, c0, c1);
    }
  }

  /** The machine stops at a return of v. */
  ghost predicate Halts(w: World, c: Config, c': Config, v: Option<int>) {
    && Reaches(w, c, c')
    && c'.pc < |w.code| && w.code[c'.pc].Ret?
    && var o := w.code[c'.pc].val;
       if v.Some? then o.Some? && Read(w, o.value, c') == v else o.None?
  }

  lemma {:induction false} PatchedFind(code: seq<Instr>, ret: nat, bb: nat, i: nat)
    requires i <= |code|
    ensures FindFrom(Patch(code, ret), bb, i) == FindFrom(code, bb, i)
    decreases |code| - i
  {
    if i < |code| { PatchedFind(code, ret, bb, i + 1); }
  }

  /** Patching the null jumps changes no step. */
  lemma PatchedStep(code: seq<Instr>, ret: nat, args: seq<int>, c: Config)
    ensures Step(World(Patch(code, ret), ret, args), c) == Step(World(code, ret, args), c)
  {
    if c.pc < |code| {
      match code[c.pc]
      case Jump(bb) => PatchedFind(code, ret, bb, 0);
      case Branch(_, bb) => PatchedFind(code, ret, bb, 0);
      case JumpToReturn => PatchedFind(code, ret, ret, 0);
      case _ =>
    }
  }

  lemma {:induction false} PatchedRun(code: seq<Instr>, ret: nat, args: seq<int>, c: Config, n: nat)
    ensures Run(World(Patch(code, ret), ret, args), c, n) == Run(World(code, ret, args), c, n)
    decreases n
  {
    if n > 0 {
      PatchedStep(code, ret, args, c);
      var s := Step(World(code, ret, args), c);
      if s.Some? { PatchedRun(code, ret, args, s.value, n - 1); }
    }
  }

  lemma PatchedReaches(code: seq<Instr>, ret: nat, args: seq<int>, c: Config, c': Config)
    requires Reaches(World(code, ret, args), c, c')
    ensures Reaches(World(Patch(code, ret), ret, args), c, c')
  {
    var n: nat :| Run(World(code, ret, args), c, n) == Some(c');
    PatchedRun(code, ret, args, c, n);
  }

  ghost predicate Callable(f: Function, args: seq<int>) {
    && |args| == |f.params| && Distinct(f.params)
    && Supported(f.body, ParamScope(f)) && !f.body.Decl?
  }

  function Call(f: Function, args: seq<int>, fuel: nat): ExecResult
    requires |args| == |f.params|
  {
    Exec(f.body, Bind(f.params, args, 0, map[]), fuel)
  }

  /** A function, its arguments, and a body run that ends. */
  ghost predicate Called(f: Function, args: seq<int>, fuel: nat) {
    Callable(f, args) && Call(f, args, fuel).Done?
  }

  function CallOutcome(f: Function, args: seq<int>, fuel: nat): Outcome
    requires |args| == |f.params| && Call(f, args, fuel).Done?
  {
    Call(f, args, fuel).o
  }

  function Start(regs: map<nat, int>, slots: map<nat, int>): Config {
    Config(0, regs, slots)
  }

  /** Where the parts of the unpatched listing are. */
  lemma FunctionLayout(f: Function)
    ensures var code := Unpatched(f);
            var p, b := LowerParams(f.params, 0, 0, map[]), LowerBody(f);
            var q := 1 + |p.code| + |b.code|;
            && |code| == q + |Epilogue(f)|
            && At(code, 0, [Label(0)]) && At(code, 1, p.code) && At(code, 1 + |p.code|, b.code) &&
              At(code, q, Epilogue(f))
            && UniqueLabels(code)
  {
    hide At, LowerParams, LowerBody, Epilogue, Count;
    var code := Unpatched(f);
    var p, b := LowerParams(f.params, 0, 0, map[]), LowerBody(f);
    forall bb: nat ensures Count(code, bb) <= 1 { FunctionBlocks(f, bb); }
    AtWhole(code);
    AtAppend(code, 0, [Label(0)] + p.code + b.code, Epilogue(f));
    AtAppend(code, 0, [Label(0)] + p.code, b.code);
    AtAppend(code, 0, [Label(0)], p.code);
  }

  /** The code of the parameters: the body starts in the environment that
      binds them. */
  lemma PrologueRuns(f: Function, args: seq<int>, c: Config) returns (c': Config)
    requires |args| == |f.params| && Distinct(f.params) && c.pc == 0
    ensures var w := World(Unpatched(f), LowerBody(f).bb, args);
            var p := LowerParams(f.params, 0, 0, map[]);
            && Reaches(w, c, c') && c'.pc == 1 + |p.code|
            && Agrees(Bind(f.params, args, 0, map[]), p.sym, c'.slots) && Below(p.sym, p.id)
  {
    hide Reaches, Agrees, Below, At, LowerParams, LowerBody, Unpatched, UniqueLabels;
    var w := World(Unpatched(f), LowerBody(f).bb, args);
    FunctionLayout(f);
    NothingAgrees(c.slots);
    ReachesSelf(w, c);
    var c1 := Pass(w, c, c, 0);
    c' := ParamsRun(f.params, 0, 0, map[], map[], w, c, c1);
  }

  lemma BindWithin(params: seq<string>, args: seq<int>)
    requires |params| == |args|
    ensures Bind(params, args, 0, map[]).Keys <= set x | x in params
  {
    BindScope(params, args, 0, map[]);
  }

  /** The unpatched code up to the end of the body. */
  lemma BodyRuns(f: Function, args: seq<int>, fuel: nat, regs: map<nat, int>, slots: map<nat, int>) returns (c': Config)
    requires Callable(f, args) && !Call(f, args, fuel).Wrong?
    ensures var w := World(Unpatched(f), LowerBody(f).bb, args);
            var r := Call(f, args, fuel);
            && (r.OutOfFuel? ==> Busy(w, Start(regs, slots), fuel))
            && (r.Done? ==> Reaches(w, Start(regs, slots), c'))
            && (r.Done? && r.o.Normal? ==>
                  c'.pc + |Epilogue(f)| == |Unpatched(f)| && At(w.code, c'.pc, Epilogue(f)))
            && (r.Done? && r.o.Returned? ==> Exits(w, c', BodyContext(f), r.o.v))
  {
    hide Reaches, Agrees, Below, At, LowerParams, Unpatched, UniqueLabels, Exec, Bind, Supported, Distinct,
      Epilogue, Exits, Seen;
    var p := LowerParams(f.params, 0, 0, map[]);
    var w := World(Unpatched(f), LowerBody(f).bb, args);
    var c := Start(regs, slots);
    var env := Bind(f.params, args, 0, map[]);
    FunctionLayout(f);
    var c2 := PrologueRuns(f, args, c);
    BindWithin(f.params, args);
    BelowLater(p.sym, p.id, p.id + 1);
    c' := StatementRuns(f.body, if Merges(f) then p.id + 1 else p.id, 1, p.sym, BodyContext(f), ParamScope(f),
                        fuel, env, w, c2);
    match Call(f, args, fuel)
    case Wrong =>
    case OutOfFuel => BusyBefore(w, c, c2, fuel);
    case Done(_, _) => ReachesTrans(w, c, c2, c');
  }

  lemma AtWhole(code: seq<Instr>)
    ensures At(code, 0, code)
  {
  }

  lemma NothingAgrees(slots: map<nat, int>)
    ensures Agrees(map[], map[], slots) && Below(map[], 0)
  {
  }

  /** The finished listing runs like the unpatched one. */
  lemma FinishedRuns(f: Function, args: seq<int>, c: Config, c': Config)
    requires Reaches(World(Unpatched(f), LowerBody(f).bb, args), c, c')
    ensures Reaches(World(LowerFunction(f), LowerBody(f).bb, args), c, c')
  {
    if Merges(f) { PatchedReaches(Unpatched(f), LowerBody(f).bb, args, c, c'); }
  }

  /** The main result for functions: if the source returns v, the listing,
      started anywhere in register and slot contents, stops at a return of v,
      whichever of several returns was executed. */
  lemma FunctionReturns(f: Function, args: seq<int>, fuel: nat, regs: map<nat, int>, slots: map<nat, int>)
    returns (c': Config)
    requires Called(f, args, fuel) && CallOutcome(f, args, fuel).Returned?
    requires !f.isVoid ==> CallOutcome(f, args, fuel).v.Some?
    ensures var w := World(LowerFunction(f), LowerBody(f).bb, args);
            Halts(w, Start(regs, slots), c', if f.isVoid then None else CallOutcome(f, args, fuel).v)
  {
    hide Reaches, LowerBody, LowerParams, Supported, Exec, Bind, Distinct;
    var v := CallOutcome(f, args, fuel).v;
    var w := World(Unpatched(f), LowerBody(f).bb, args);
    var c := Start(regs, slots);
    var c1 := BodyRuns(f, args, fuel, regs, slots);
    if Merges(f) {
      c' := MergedReturn(f, args, w, c, c1, v.value);
    } else {
      c' := c1;
      FinishedRuns(f, args, c, c');
      assert w.code == LowerFunction(f);
      if f.isVoid {
        AtIndex(w.code, c1.pc, [Ret(None)], 0);
      } else {
        var o :| At(w.code, c1.pc, [Ret(Some(o))]) && Read(w, o, c1) == v;
        AtIndex(w.code, c1.pc, [Ret(Some(o))], 0);
      }
    }
  }

  lemma ReturnJump(w: World, c0: Config, c: Config, q: nat) returns (c': Config)
    requires UniqueLabels(w.code) && Reaches(w, c0, c)
    requires At(w.code, c.pc, [JumpToReturn]) && At(w.code, q, [Label(w.ret)])
    ensures Reaches(w, c0, c') && c'.pc == q + 1 && c'.slots == c.slots
  {
    AtIndex(w.code, c.pc, [JumpToReturn], 0);
    AtIndex(w.code, q, [Label(w.ret)], 0);
    FindLabel(w.code, w.ret, q);
    var c1 := Do(w, c0, c);
    c' := Do(w, c0, c1);
  }

  lemma LoadResult(w: World, c0: Config, c: Config, id: nat, slot: nat, v: int) returns (c': Config)
    requires Reaches(w, c0, c) && At(w.code, c.pc, [Load(id, slot)]) && slot in c.slots && c.slots[slot] == v
    ensures Reaches(w, c0, c') && c' == Config(c.pc + 1, c.regs[id := v], c.slots)
  {
    AtIndex(w.code, c.pc, [Load(id, slot)], 0);
    c' := Do(w, c0, c);
  }

  /** From the jump to the return block to the return itself. */
  lemma MergedReturn(f: Function, args: seq<int>, w: World, c: Config, c1: Config, v: int) returns (c': Config)
    requires Merges(f) && w == World(Unpatched(f), LowerBody(f).bb, args)
    requires Reaches(w, c, c1) && At(w.code, c1.pc, [JumpToReturn])
    requires MergeSlot(f) in c1.slots && c1.slots[MergeSlot(f)] == v
    ensures Halts(World(LowerFunction(f), LowerBody(f).bb, args), c, c', Some(v))
  {
    hide Reaches, LowerBody, LowerParams, At, UniqueLabels, Unpatched;
    var p, b := LowerParams(f.params, 0, 0, map[]), LowerBody(f);
    var q := 1 + |p.code| + |b.code|;
    FunctionLayout(f);
    AtOne(w.code, q, Epilogue(f), 0);
    AtOne(w.code, q, Epilogue(f), 1);
    AtOne(w.code, q, Epilogue(f), 2);
    var c2 := ReturnJump(w, c, c1, q);
    c' := LoadResult(w, c, c2, b.id, MergeSlot(f), v);
    AtIndex(w.code, q + 2, [Ret(Some(Reg(b.id)))], 0);
    FinishedRuns(f, args, c, c');
  }

  /** A void function whose body ends without a return stops at a return
      exactly if it has no return statement at all; otherwise control falls
      off the end of the listing. */
  lemma VoidEndsAtReturn(f: Function, args: seq<int>, fuel: nat, regs: map<nat, int>, slots: map<nat, int>)
    requires Called(f, args, fuel) && CallOutcome(f, args, fuel).Normal? && f.isVoid
    ensures var w := World(LowerFunction(f), LowerBody(f).bb, args);
            && ((exists c' :: Halts(w, Start(regs, slots), c', None)) <==> Returns(f.body) == 0)
            && (Returns(f.body) > 0 ==> exists c' :: Reaches(w, Start(regs, slots), c') && c'.pc == |w.code|)
  {
    hide Reaches, LowerBody, LowerParams, Callable, Call;
    var w := World(LowerFunction(f), LowerBody(f).bb, args);
    var c := Start(regs, slots);
    var c1 := BodyRuns(f, args, fuel, regs, slots);
    assert w.code == Unpatched(f);
    if Returns(f.body) == 0 {
      AtIndex(w.code, c1.pc, Epilogue(f), 0);
      assert Halts(w, c, c1, None);
    } else {
      assert c1.pc == |w.code|;
      forall c' | Halts(w, c, c', None)
        ensures false
      {
        StopsOnce(w, c, c1, c');
      }
    }
  }
}
