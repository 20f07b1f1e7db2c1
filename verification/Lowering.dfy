/** What lowering emits, as functions of the syntax tree and of the factory's
    counters.  The methods in the module Codegen emit exactly this. */
module Lowering {
  import opened Words
  import opened Source
  import opened IR

  /** Names of locals, each with the id of its stack allocation. */
  type SymbolTable = map<string, nat>

  function SlotOf(sym: SymbolTable, x: string): nat {
    if x in sym then sym[x] else 0
  }

  /** The code of an expression, the operand that holds its value, the two
      counters afterwards (value ids, allocated blocks), and the stack
      allocations it put at the front of the entry block. */
  datatype Frag = Frag(code: seq<Instr>, val: Operand, id: nat, bb: nat, allocs: seq<nat>)

  function InvertInstr(i: Instr, id: nat): Instr {
    if i.Cmp? && i.id == id then i.(rel := Invert(i.rel)) else i
  }

  /** The code after the relation of compare id was inverted in place. */
  function InvertIn(code: seq<Instr>, id: nat): (r: seq<Instr>)
    ensures |r| == |code|
    ensures forall i :: 0 <= i < |code| ==> r[i] == InvertInstr(code[i], id)
  {
    seq(|code|, i requires 0 <= i < |code| => InvertInstr(code[i], id))
  }

  /** An expression whose value is tested: if the value is a compare, its
      relation is inverted, otherwise nothing changes yet... */
  function Tested(f: Frag): (code: seq<Instr>)
    ensures |code| == |f.code|
  {
    if f.val.CmpResult? then InvertIn(f.code, f.val.id) else f.code
  }

  /** ...and a compare with zero is added here.  Either way the branch to
      target is taken when the value is zero. */
  function BranchIfZero(val: Operand, id: nat, target: nat): seq<Instr> {
    if val.CmpResult? then [Branch(val, target)]
    else [Cmp(id, EQ, val, Const(0)), Branch(CmpResult(id), target)]
  }

  function IdAfterBranch(val: Operand, id: nat): nat {
    if val.CmpResult? then id else id + 1
  }

  /** Constants are moved to the right of a commutative operator. */
  predicate SwapsOperands(commutative: bool, a: Operand, b: Operand) {
    commutative && a.Const? && !b.Const?
  }

  /** Both operands of a binary instruction; a constant that stays on the
      left is moved into a register. */
  datatype Operands = Operands(code: seq<Instr>, a: Operand, b: Operand, id: nat, bb: nat, allocs: seq<nat>)

  function MakeOperands(l: Frag, r: Frag, commutative: bool): (o: Operands)
    ensures r.id <= o.id && r.bb == o.bb
  {
    var swap := SwapsOperands(commutative, l.val, r.val);
    var a := if swap then r.val else l.val;
    var b := if swap then l.val else r.val;
    if a.Const? then Operands(l.code + r.code + [Mov(r.id, a)], Reg(r.id), b, r.id + 1, r.bb, l.allocs + r.allocs)
    else Operands(l.code + r.code, a, b, r.id, r.bb, l.allocs + r.allocs)
  }

  predicate CommutativeOp(op: BinOp) { op == ADD || op == MUL || op == AND }

  predicate CommutativeRel(rel: CompRel) { rel == EQ || rel == NE }

  function BinaryCode(op: BinOp, o: Operands): (f: Frag)
    ensures f.val == Reg(o.id) && f.id == o.id + 1 && f.bb == o.bb
  {
    Frag(o.code + [Bin(o.id, op, o.a, o.b)], Reg(o.id), o.id + 1, o.bb, o.allocs)
  }

  function CompareCode(rel: CompRel, o: Operands): (f: Frag)
    ensures f.val == CmpResult(o.id) && f.id == o.id + 1 && f.bb == o.bb
  {
    Frag(o.code + [Cmp(o.id, rel, o.a, o.b)], CmpResult(o.id), o.id + 1, o.bb, o.allocs)
  }

  function NotCode(f: Frag): (r: Frag)
    ensures f.id < r.id && r.bb == f.bb + 2 && r.val == Reg(r.id - 1)
  {
    var slot, yes, end := f.id, f.bb, f.bb + 1;
    var id := IdAfterBranch(f.val, slot + 1);
    Frag(Tested(f) + [Store(Const(1), slot)] + BranchIfZero(f.val, slot + 1, end)
         + [Label(yes), Store(Const(0), slot), Jump(end), Label(end), Load(id, slot)],
         Reg(id), id + 1, f.bb + 2, f.allocs + [slot])
  }

  /** bb is the first of the four blocks, slot the stack allocation; both were
      made before the operands were lowered. */
  function LogicalAndCode(slot: nat, bb: nat, l: Frag, r: Frag): (f: Frag)
    ensures r.id < f.id && f.bb == r.bb && f.val == Reg(f.id - 1)
  {
    var rhs, yes, no, end := bb, bb + 1, bb + 2, bb + 3;
    var id := IdAfterBranch(r.val, r.id);
    Frag([Store(Const(0), slot)]
         + Tested(l) + BranchIfZero(l.val, l.id, no) + [Label(rhs)]
         + Tested(r) + BranchIfZero(r.val, r.id, no)
         + [Label(yes), Store(Const(1), slot), Jump(end),
            Label(no), Store(Const(0), slot), Jump(end),
            Label(end), Load(id, slot)],
         Reg(id), id + 1, r.bb, [slot] + l.allocs + r.allocs)
  }

  function TernaryCode(bb: nat, c: Frag, t: Frag, f: Frag): (r: Frag)
    ensures r.id == f.id && r.bb == f.bb && r.val == Slot(t.id)
  {
    var yes, no, end := bb, bb + 1, bb + 2;
    var slot := t.id;
    Frag(Tested(c) + BranchIfZero(c.val, c.id, no) + [Label(yes)]
         + t.code + [Store(t.val, slot), Jump(end), Label(no)]
         + f.code + [Store(f.val, slot), Jump(end), Label(end)],
         Slot(slot), f.id, f.bb, c.allocs + t.allocs + [slot] + f.allocs)
  }

  function VarCode(id: nat, bb: nat, slot: nat): (r: Frag)
    ensures r.val == Reg(id) && r.id == id + 1 && r.bb == bb
  {
    Frag([Load(id, slot)], Reg(id), id + 1, bb, [])
  }

  /** `-literal` is folded by the front end. */
  function MinusCode(f: Frag): (r: Frag)
    ensures r.val == Reg(f.id) && r.id == f.id + 1 && r.bb == f.bb
  {
    Frag(f.code + [Bin(f.id, SUB, Const(0), f.val)], Reg(f.id), f.id + 1, f.bb, f.allocs)
  }

  function PostCode(id: nat, bb: nat, slot: nat, increment: bool): (r: Frag)
    ensures r.val == Reg(id) && r.id == id + 2 && r.bb == bb
  {
    Frag([Load(id, slot), Bin(id + 1, if increment then ADD else SUB, Reg(id), Const(1)), Store(Reg(id + 1), slot)],
         Reg(id), id + 2, bb, [])
  }

  function AssignCode(f: Frag, slot: nat): (r: Frag)
    ensures r.val == f.val && r.id == f.id && r.bb == f.bb
  {
    f.(code := f.code + [Store(f.val, slot)])
  }

  function OpAssignCode(op: BinOp, f: Frag, slot: nat): (r: Frag)
    ensures r.val == Reg(f.id + 1) && r.id == f.id + 2 && r.bb == f.bb
  {
    Frag(f.code + [Load(f.id, slot), Bin(f.id + 1, op, Reg(f.id), f.val), Store(Reg(f.id + 1), slot)],
         Reg(f.id + 1), f.id + 2, f.bb, f.allocs)
  }

  /** The operand is a constant or was created with an id in [lo, hi). */
  predicate Fresh(o: Operand, lo: nat, hi: nat) {
    match o
    case Const(_) => true
    case Reg(id) => lo <= id < hi
    case CmpResult(id) => lo <= id < hi
    case Slot(id) => lo <= id < hi
    case Param(_) => false
  }

  /** The expressions that hand their compare instruction to the parent. */
  predicate ReturnsCompare(e: Expr) {
    e.Compare? || (e.Assign? && ReturnsCompare(e.e))
  }

  function Lower(e: Expr, id: nat, bb: nat, sym: SymbolTable): (f: Frag)
    ensures id <= f.id && bb <= f.bb && Fresh(f.val, id, f.id)
    ensures f.val.CmpResult? <==> ReturnsCompare(e)
    decreases e, 1
  {
    match e
    case Literal(n) => Frag([], Const(n), id, bb, [])
    case Var(x) => VarCode(id, bb, SlotOf(sym, x))
    case Not(_) => LowerNot(e, id, bb, sym)
    case Minus(_) => LowerMinus(e, id, bb, sym)
    case Post(x, increment) => PostCode(id, bb, SlotOf(sym, x), increment)
    case Binary(_, _, _) => LowerBinary(e, id, bb, sym)
    case Compare(_, _, _) => LowerCompare(e, id, bb, sym)
    case LogicalAnd(_, _) => LowerLogicalAnd(e, id, bb, sym)
    case Assign(_, _) => LowerAssign(e, id, bb, sym)
    case OpAssign(_, _, _) => LowerOpAssign(e, id, bb, sym)
    case Ternary(_, _, _) => LowerTernary(e, id, bb, sym)
  }

  function LowerNot(e: Expr, id: nat, bb: nat, sym: SymbolTable): (f: Frag)
    requires e.Not?
    ensures id <= f.id && bb <= f.bb && f.val.Reg? && Fresh(f.val, id, f.id)
    decreases e, 0
  {
    NotCode(Lower(e.e, id, bb, sym))
  }

  function LowerMinus(e: Expr, id: nat, bb: nat, sym: SymbolTable): (f: Frag)
    requires e.Minus?
    ensures id <= f.id && bb <= f.bb && (f.val.Reg? || f.val.Const?) && Fresh(f.val, id, f.id)
    decreases e, 0
  {
    if e.e.Literal? then Frag([], Const(-e.e.n), id, bb, []) else MinusCode(Lower(e.e, id, bb, sym))
  }

  function LowerBinary(e: Expr, id: nat, bb: nat, sym: SymbolTable): (f: Frag)
    requires e.Binary?
    ensures id <= f.id && bb <= f.bb && f.val.Reg? && Fresh(f.val, id, f.id)
    decreases e, 0
  {
    var fl := Lower(e.l, id, bb, sym);
    var fr := Lower(e.r, fl.id, fl.bb, sym);
    BinaryCode(e.op, MakeOperands(fl, fr, CommutativeOp(e.op)))
  }

  function LowerCompare(e: Expr, id: nat, bb: nat, sym: SymbolTable): (f: Frag)
    requires e.Compare?
    ensures id <= f.id && bb <= f.bb && f.val.CmpResult? && Fresh(f.val, id, f.id)
    decreases e, 0
  {
    var fl := Lower(e.l, id, bb, sym);
    var fr := Lower(e.r, fl.id, fl.bb, sym);
    CompareCode(e.rel, MakeOperands(fl, fr, CommutativeRel(e.rel)))
  }

  function LowerLogicalAnd(e: Expr, id: nat, bb: nat, sym: SymbolTable): (f: Frag)
    requires e.LogicalAnd?
    ensures id <= f.id && bb <= f.bb && f.val.Reg? && Fresh(f.val, id, f.id)
    decreases e, 0
  {
    var fl := Lower(e.l, id + 1, bb + 4, sym);
    var fr := Lower(e.r, IdAfterBranch(fl.val, fl.id), fl.bb, sym);
    LogicalAndCode(id, bb, fl, fr)
  }

  function LowerAssign(e: Expr, id: nat, bb: nat, sym: SymbolTable): (f: Frag)
    requires e.Assign?
    ensures id <= f.id && bb <= f.bb && Fresh(f.val, id, f.id) && (f.val.CmpResult? <==> ReturnsCompare(e.e))
    decreases e, 0
  {
    AssignCode(Lower(e.e, id, bb, sym), SlotOf(sym, e.x))
  }

  function LowerOpAssign(e: Expr, id: nat, bb: nat, sym: SymbolTable): (f: Frag)
    requires e.OpAssign?
    ensures id <= f.id && bb <= f.bb && f.val.Reg? && Fresh(f.val, id, f.id)
    decreases e, 0
  {
    OpAssignCode(e.aop, Lower(e.e, id, bb, sym), SlotOf(sym, e.x))
  }

  function LowerTernary(e: Expr, id: nat, bb: nat, sym: SymbolTable): (f: Frag)
    requires e.Ternary?
    ensures id <= f.id && bb <= f.bb && f.val.Slot? && Fresh(f.val, id, f.id)
    decreases e, 0
  {
    var fc := Lower(e.c, id, bb + 3, sym);
    var ft := Lower(e.t, IdAfterBranch(fc.val, fc.id), fc.bb, sym);
    var ff := Lower(e.f, ft.id + 1, ft.bb, sym);
    TernaryCode(bb, fc, ft, ff)
  }

  // ---------------------------------------------------------------------
  // Statements
  // ---------------------------------------------------------------------

  /** The code of a statement, the counters and the symbol table after it. */
  datatype StmtFrag = StmtFrag(code: seq<Instr>, id: nat, bb: nat, sym: SymbolTable, allocs: seq<nat>)

  /** Where `break` and `continue` jump (the last entry is the innermost),
      whether the function is void, and the slot that merges several returns. */
  datatype Context = Context(breaks: seq<nat>, increments: seq<nat>, isVoid: bool, merge: Option<nat>)

  function Last(s: seq<nat>): nat {
    if s == [] then 0 else s[|s| - 1]
  }

  function WithBreak(ctx: Context, bb: nat): Context {
    ctx.(breaks := ctx.breaks + [bb])
  }

  function WithLoop(ctx: Context, end: nat, increment: nat): Context {
    ctx.(breaks := ctx.breaks + [end], increments := ctx.increments + [increment])
  }

  function IfCode(end: nat, c: Frag, yes: nat, t: StmtFrag): (r: StmtFrag)
    ensures r.id == t.id && r.bb == t.bb && r.sym == t.sym
  {
    StmtFrag(Tested(c) + BranchIfZero(c.val, c.id, end) + [Label(yes)] + t.code + [Jump(end), Label(end)],
             t.id, t.bb, t.sym, c.allocs + t.allocs)
  }

  function IfElseCode(bb: nat, c: Frag, yes: nat, t: StmtFrag, e: StmtFrag): (r: StmtFrag)
    ensures r.id == e.id && r.bb == e.bb && r.sym == e.sym
  {
    var els, end := bb, bb + 1;
    StmtFrag(Tested(c) + BranchIfZero(c.val, c.id, els) + [Label(yes)] + t.code
             + [Jump(end), Label(els)] + e.code + [Jump(end), Label(end)],
             e.id, e.bb, e.sym, c.allocs + t.allocs + e.allocs)
  }

  function WhileCode(bb: nat, c: Frag, s: StmtFrag): (r: StmtFrag)
    ensures r.id == s.id && r.bb == s.bb && r.sym == s.sym
  {
    var header, loop, end := bb, bb + 1, bb + 2;
    StmtFrag([Jump(header), Label(header)] + (Tested(c) + BranchIfZero(c.val, c.id, end))
             + [Label(loop)] + s.code + [Jump(header), Label(end)],
             s.id, s.bb, s.sym, c.allocs + s.allocs)
  }

  function ForCode(bb: nat, start: StmtFrag, c: Frag, s: StmtFrag, step: Frag): (r: StmtFrag)
    ensures r.id == step.id && r.bb == step.bb && r.sym == s.sym
  {
    var header, loop, increment, end := bb, bb + 1, bb + 2, bb + 3;
    StmtFrag(start.code + [Jump(header), Label(header)] + (Tested(c) + BranchIfZero(c.val, c.id, end))
             + [Label(loop)] + s.code + [Jump(increment), Label(increment)]
             + step.code + [Jump(header), Label(end)],
             step.id, step.bb, s.sym, start.allocs + c.allocs + s.allocs + step.allocs)
  }

  /** Only cases with statements get a block of their own. */
  function Bodies(cases: Cases): nat {
    match cases
    case Default(_) => 0
    case Case(_, ss, rest) => (if ss.Nil? then 0 else 1) + Bodies(rest)
  }

  function TestCount(cases: Cases): nat {
    match cases
    case Default(_) => 0
    case Case(_, _, rest) => 1 + TestCount(rest)
  }

  /** One compare and branch per case; k is the block of the next body. */
  function CaseTests(cases: Cases, val: Operand, id: nat, k: nat): seq<Instr> {
    match cases
    case Default(_) => []
    case Case(n, ss, rest) =>
      [Cmp(id, EQ, val, Const(n)), Branch(CmpResult(id), k)]
      + CaseTests(rest, val, id + 1, if ss.Nil? then k else k + 1)
  }

  function SwitchCode(bb: nat, c: Frag, cases: Cases, bodies: StmtFrag): (r: StmtFrag)
    ensures r.id == bodies.id && r.bb == bodies.bb && r.sym == bodies.sym
  {
    var end, default := bb, bb + 1;
    StmtFrag(c.code + CaseTests(cases, c.val, c.id, c.bb) + [Jump(default)]
             + bodies.code + [Label(end)],
             bodies.id, bodies.bb, bodies.sym, c.allocs + bodies.allocs)
  }

  /** A `return`: with several returns the value goes to the merge slot. */
  function ReturnCode(ctx: Context, f: Frag, sym: SymbolTable, hasValue: bool): (r: StmtFrag)
    ensures r.id == f.id && r.bb == f.bb && r.sym == sym
  {
    var exit :=
      if ctx.merge.Some? then
        if hasValue then [Store(f.val, ctx.merge.value), JumpToReturn] else [JumpToReturn]
      else [Ret(if hasValue then Some(f.val) else None)];
    StmtFrag(f.code + exit, f.id, f.bb, sym, f.allocs)
  }

  function LowerStmt(s: Stmt, id: nat, bb: nat, sym: SymbolTable, ctx: Context): (f: StmtFrag)
    ensures id <= f.id && bb <= f.bb
    decreases s, 1
  {
    match s
    case ExprStmt(e) =>
      var g := Lower(e, id, bb, sym);
      StmtFrag(g.code, g.id, g.bb, sym, g.allocs)
    case Decl(x, init) => LowerDecl(x, init, id, bb, sym)
    case Compound(ss) => LowerList(ss, id, bb, sym, ctx)
    case If(_, _) => LowerIf(s, id, bb, sym, ctx)
    case IfElse(_, _, _) => LowerIfElse(s, id, bb, sym, ctx)
    case While(_, _, _) => LowerWhile(s, id, bb, sym, ctx)
    case For(_, _, _, _) => LowerFor(s, id, bb, sym, ctx)
    case Switch(_, _) => LowerSwitch(s, id, bb, sym, ctx)
    case Break => StmtFrag([Jump(Last(ctx.breaks))], id, bb, sym, [])
    case Continue => StmtFrag([Jump(Last(ctx.increments))], id, bb, sym, [])
    case Return(ret) => LowerReturn(ret, id, bb, sym, ctx)
  }

  function LowerDecl(x: string, init: Option<Expr>, id: nat, bb: nat, sym: SymbolTable): (f: StmtFrag)
    ensures id <= f.id && bb <= f.bb
  {
    match init
    case None => StmtFrag([], id + 1, bb, sym[x := id], [id])
    case Some(e) =>
      var g := Lower(e, id + 1, bb, sym);
      StmtFrag(g.code + [Store(g.val, id)], g.id, g.bb, sym[x := id], [id] + g.allocs)
  }

  function LowerReturn(ret: Option<Expr>, id: nat, bb: nat, sym: SymbolTable, ctx: Context): (f: StmtFrag)
    ensures id <= f.id && bb <= f.bb
  {
    if ret.Some? && !ctx.isVoid then ReturnCode(ctx, Lower(ret.value, id, bb, sym), sym, true)
    else ReturnCode(ctx, Frag([], Const(0), id, bb, []), sym, false)
  }

  function LowerIf(s: Stmt, id: nat, bb: nat, sym: SymbolTable, ctx: Context): (f: StmtFrag)
    requires s.If?
    ensures id <= f.id && bb <= f.bb
    decreases s, 0
  {
    var fc := Lower(s.c, id, bb + 1, sym);
    var ft := LowerStmt(s.thn, IdAfterBranch(fc.val, fc.id), fc.bb + 1, sym, ctx);
    IfCode(bb, fc, fc.bb, ft)
  }

  function LowerIfElse(s: Stmt, id: nat, bb: nat, sym: SymbolTable, ctx: Context): (f: StmtFrag)
    requires s.IfElse?
    ensures id <= f.id && bb <= f.bb
    decreases s, 0
  {
    var fc := Lower(s.c, id, bb + 2, sym);
    var ft := LowerStmt(s.thn, IdAfterBranch(fc.val, fc.id), fc.bb + 1, sym, ctx);
    var fe := LowerStmt(s.els, ft.id, ft.bb, ft.sym, ctx);
    IfElseCode(bb, fc, fc.bb, ft, fe)
  }

  function LowerWhile(s: Stmt, id: nat, bb: nat, sym: SymbolTable, ctx: Context): (f: StmtFrag)
    requires s.While?
    ensures id <= f.id && bb <= f.bb
    decreases s, 0
  {
    var fc := Lower(s.c, id, bb + 3, sym);
    var fs := LowerStmt(s.loop, IdAfterBranch(fc.val, fc.id), fc.bb, sym, WithBreak(ctx, bb + 2));
    WhileCode(bb, fc, fs)
  }

  function LowerFor(s: Stmt, id: nat, bb: nat, sym: SymbolTable, ctx: Context): (f: StmtFrag)
    requires s.For?
    ensures id <= f.id && bb <= f.bb
    decreases s, 0
  {
    var f0 := LowerStmt(s.start, id, bb + 4, sym, ctx);
    var fc := Lower(s.c, f0.id, f0.bb, f0.sym);
    var fs := LowerStmt(s.loop, IdAfterBranch(fc.val, fc.id), fc.bb, f0.sym, WithLoop(ctx, bb + 3, bb + 2));
    var fi := Lower(s.step, fs.id, fs.bb, fs.sym);
    ForCode(bb, f0, fc, fs, fi)
  }

  function LowerSwitch(s: Stmt, id: nat, bb: nat, sym: SymbolTable, ctx: Context): (f: StmtFrag)
    requires s.Switch?
    ensures id <= f.id && bb <= f.bb
    decreases s, 0
  {
    var fc := Lower(s.c, id, bb + 2, sym);
    var fb := LowerCases(s.cases, fc.bb, bb + 1, fc.id + TestCount(s.cases), fc.bb + Bodies(s.cases), sym,
      WithBreak(ctx, bb));
    SwitchCode(bb, fc, s.cases, fb)
  }

  function LowerList(ss: Stmts, id: nat, bb: nat, sym: SymbolTable, ctx: Context): (f: StmtFrag)
    ensures id <= f.id && bb <= f.bb
    decreases ss
  {
    match ss
    case Nil => StmtFrag([], id, bb, sym, [])
    case Cons(s, rest) =>
      var g := LowerStmt(s, id, bb, sym, ctx);
      var h := LowerList(rest, g.id, g.bb, g.sym, ctx);
      StmtFrag(g.code + h.code, h.id, h.bb, h.sym, g.allocs + h.allocs)
  }

  /** The bodies in order, each behind its label, the default last. */
  function LowerCases(cases: Cases, k: nat, default: nat, id: nat, bb: nat, sym: SymbolTable,
                      ctx: Context): (f: StmtFrag)
    ensures id <= f.id && bb <= f.bb
    decreases cases
  {
    match cases
    case Default(ss) =>
      var g := LowerList(ss, id, bb, sym, ctx);
      g.(code := [Label(default)] + g.code)
    case Case(_, ss, rest) =>
      if ss.Nil? then LowerCases(rest, k, default, id, bb, sym, ctx)
      else
        var g := LowerList(ss, id, bb, sym, ctx);
        var h := LowerCases(rest, k + 1, default, g.id, g.bb, g.sym, ctx);
        StmtFrag([Label(k)] + g.code + h.code, h.id, h.bb, h.sym, g.allocs + h.allocs)
  }

  // ---------------------------------------------------------------------
  // Null jumps
  // ---------------------------------------------------------------------

  function PatchInstr(i: Instr, ret: nat): Instr {
    if i.JumpToReturn? then Jump(ret) else i
  }

  /** The null jumps get the return block as their target. */
  function Patch(code: seq<Instr>, ret: nat): (r: seq<Instr>)
    ensures |r| == |code|
    ensures forall i :: 0 <= i < |code| ==> r[i] == PatchInstr(code[i], ret)
  {
    seq(|code|, i requires 0 <= i < |code| => PatchInstr(code[i], ret))
  }
}
