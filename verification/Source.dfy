/** The source fragment: the statements and expressions whose lowering is
    modelled, with a big-step semantics.  Values are 32-bit ints. */
module Source {
  import opened Words

  datatype BinOp = ADD | SUB | MUL | DIV | DIVU | MOD | MODU | AND | LSL | LSR

  datatype CompRel = EQ | NE | LT | GT | LE | GE

  /** `x op= e` exists only for these operators. */
  type AssignOp = op: BinOp | op in {ADD, SUB, MUL, DIV} witness ADD

  datatype Expr =
    | Literal(n: int)
    | Var(x: string)
    | Not(e: Expr)
    | Minus(e: Expr)
    | Post(x: string, increment: bool)
    | Binary(op: BinOp, l: Expr, r: Expr)
    | Compare(rel: CompRel, l: Expr, r: Expr)
    | LogicalAnd(l: Expr, r: Expr)
    | Assign(x: string, e: Expr)
    | OpAssign(aop: AssignOp, x: string, e: Expr)
    | Ternary(c: Expr, t: Expr, f: Expr)

  /** In C a `continue` in the body of a while is for that while: its own is
      true.  A while whose own is false passes it on to the loop around it; that
      is what lowering makes of it, and no program text means it. */
  datatype Stmt =
    | ExprStmt(e: Expr)
    | Decl(x: string, init: Option<Expr>)
    | Compound(body: Stmts)
    | If(c: Expr, thn: Stmt)
    | IfElse(c: Expr, thn: Stmt, els: Stmt)
    | While(c: Expr, loop: Stmt, own: bool)
    | For(start: Stmt, c: Expr, step: Expr, loop: Stmt)
    | Switch(c: Expr, cases: Cases)
    | Break
    | Continue
    | Return(ret: Option<Expr>)

  datatype Stmts = Nil | Cons(head: Stmt, tail: Stmts)

  /** The cases of a switch in source order; the default comes last. */
  datatype Cases = Default(stmts: Stmts) | Case(k: int, stmts: Stmts, rest: Cases)

  // ---------------------------------------------------------------------
  // Arithmetic
  // ---------------------------------------------------------------------

  /** The value of a binary operator, or None where C leaves it undefined. */
  function BinValue(op: BinOp, a: int, b: int): Option<int> {
    match op
    case ADD => Some(Wrap(a + b))
    case SUB => Some(Wrap(a - b))
    case MUL => Some(Wrap(a * b))
    case DIV => if b == 0 then None else Some(Wrap(TruncDiv(a, b)))
    case DIVU => if Unsigned(b) == 0 then None else Some(Wrap(Unsigned(a) / Unsigned(b)))
    case MOD => if b == 0 then None else Some(Wrap(a - TruncDiv(a, b) * b))
    case MODU => if Unsigned(b) == 0 then None else Some(Wrap(Unsigned(a) % Unsigned(b)))
    case AND => Some(Wrap(BitAnd(Unsigned(a), Unsigned(b))))
    case LSL => if 0 <= b < 32 then Some(Wrap(a * Pow2(b))) else None
    case LSR => if 0 <= b < 32 then Some(Wrap(Unsigned(a) / Pow2(b))) else None
  }

  predicate Holds(rel: CompRel, a: int, b: int) {
    match rel
    case EQ => a == b
    case NE => a != b
    case LT => a < b
    case GT => a > b
    case LE => a <= b
    case GE => a >= b
  }

  function Truth(b: bool): int { if b then 1 else 0 }

  // ---------------------------------------------------------------------
  // Expressions
  // ---------------------------------------------------------------------

  /** The variables in scope; None marks one that has no value yet. */
  type Env = map<string, Option<int>>

  datatype EvalResult = Undefined | Value(v: int, env: Env)

  predicate HasValue(env: Env, x: string) {
    x in env && env[x].Some?
  }

  /** Operands are evaluated left to right, the right side of an assignment
      before its left side; `&&` and `?:` evaluate only what they need. */
  function Eval(e: Expr, env: Env): EvalResult {
    match e
    case Literal(n) => Value(Wrap(n), env)
    case Var(x) => if HasValue(env, x) then Value(env[x].value, env) else Undefined
    case Not(e) =>
      (match Eval(e, env)
       case Undefined => Undefined
       case Value(v, env1) => Value(Truth(v == 0), env1))
    case Minus(e) =>
      (match Eval(e, env)
       case Undefined => Undefined
       case Value(v, env1) => Value(Wrap(-v), env1))
    case Post(x, increment) =>
      if HasValue(env, x) then
        var v := env[x].value;
        Value(v, env[x := Some(Wrap(if increment then v + 1 else v - 1))])
      else Undefined
    case Binary(op, l, r) =>
      (match Eval(l, env)
       case Undefined => Undefined
       case Value(a, env1) =>
         match Eval(r, env1)
         case Undefined => Undefined
         case Value(b, env2) =>
           match BinValue(op, a, b)
           case None => Undefined
           case Some(v) => Value(v, env2))
    case Compare(rel, l, r) =>
      (match Eval(l, env)
       case Undefined => Undefined
       case Value(a, env1) =>
         match Eval(r, env1)
         case Undefined => Undefined
         case Value(b, env2) => Value(Truth(Holds(rel, a, b)), env2))
    case LogicalAnd(l, r) =>
      (match Eval(l, env)
       case Undefined => Undefined
       case Value(a, env1) =>
         if a == 0 then Value(0, env1)
         else
           match Eval(r, env1)
           case Undefined => Undefined
           case Value(b, env2) => Value(Truth(b != 0), env2))
    case Assign(x, e) =>
      (match Eval(e, env)
       case Undefined => Undefined
       case Value(v, env1) =>
         if x in env1 then Value(v, env1[x := Some(v)]) else Undefined)
    case OpAssign(op, x, e) =>
      (match Eval(e, env)
       case Undefined => Undefined
       case Value(b, env1) =>
         if !HasValue(env1, x) then Undefined
         else
           match BinValue(op, env1[x].value, b)
           case None => Undefined
           case Some(v) => Value(v, env1[x := Some(v)]))
    case Ternary(c, t, f) =>
      match Eval(c, env)
      case Undefined => Undefined
      case Value(v, env1) => if v != 0 then Eval(t, env1) else Eval(f, env1)
  }

  // ---------------------------------------------------------------------
  // Statements
  // ---------------------------------------------------------------------

  datatype Outcome = Normal | Broke | Continued | Returned(v: Option<int>)

  /** Wrong is undefined behaviour; a run that needs more loop iterations in a
      row than the fuel allows is OutOfFuel. */
  datatype ExecResult = Wrong | OutOfFuel | Done(o: Outcome, env: Env)

  /** The names declared directly in a statement list. */
  function Declared(ss: Stmts): set<string> {
    match ss
    case Nil => {}
    case Cons(s, rest) => (if s.Decl? then {s.x} else {}) + Declared(rest)
  }

  function DeclaredInCases(cs: Cases): set<string> {
    match cs
    case Default(ss) => Declared(ss)
    case Case(_, ss, rest) => Declared(ss) + DeclaredInCases(rest)
  }

  /** Leaving a scope: the names it declared stop shadowing the outer ones. */
  function Leave(before: Env, after: Env, declared: set<string>): (r: Env)
    ensures r.Keys == before.Keys
  {
    map x | x in before :: if x in declared || x !in after then before[x] else after[x]
  }

  function LeaveResult(before: Env, r: ExecResult, declared: set<string>): ExecResult {
    match r
    case Wrong => Wrong
    case OutOfFuel => OutOfFuel
    case Done(o, env) => Done(o, Leave(before, env, declared))
  }

  /** `break` ends a loop or a switch, nothing else escapes as Broke. */
  function EndBreak(o: Outcome): Outcome {
    if o.Broke? then Normal else o
  }

  function Exec(s: Stmt, env: Env, fuel: nat): ExecResult
    decreases fuel, s, 0
  {
    match s
    case ExprStmt(e) =>
      (match Eval(e, env)
       case Undefined => Wrong
       case Value(_, env1) => Done(Normal, env1))
    case Decl(x, init) =>
      (match init
       case None => Done(Normal, env[x := None])
       case Some(e) =>
         match Eval(e, env)
         case Undefined => Wrong
         case Value(v, env1) => Done(Normal, env1[x := Some(v)]))
    case Compound(ss) => LeaveResult(env, ExecList(ss, env, fuel), Declared(ss))
    case If(c, thn) =>
      (match Eval(c, env)
       case Undefined => Wrong
       case Value(v, env1) => if v != 0 then Exec(thn, env1, fuel) else Done(Normal, env1))
    case IfElse(c, thn, els) =>
      (match Eval(c, env)
       case Undefined => Wrong
       case Value(v, env1) => if v != 0 then Exec(thn, env1, fuel) else Exec(els, env1, fuel))
    case While(c, loop, own) =>
      (match Eval(c, env)
       case Undefined => Wrong
       case Value(v, env1) =>
         if v == 0 then Done(Normal, env1)
         else
           match Exec(loop, env1, fuel)
           case Wrong => Wrong
           case OutOfFuel => OutOfFuel
           case Done(o, env2) =>
             if o.Normal? || (o.Continued? && own) then
               if fuel == 0 then OutOfFuel else Exec(s, env2, fuel - 1)
             else Done(EndBreak(o), env2))
    case For(start, c, step, loop) =>
      (match Exec(start, env, fuel)
       case Wrong => Wrong
       case OutOfFuel => OutOfFuel
       case Done(o, env1) =>
         LeaveResult(env, ExecFor(c, step, loop, env1, fuel), if start.Decl? then {start.x} else {}))
    case Switch(c, cases) =>
      (match Eval(c, env)
       case Undefined => Wrong
       case Value(v, env1) =>
         match ExecSwitch(v, cases, env1, fuel)
         case Wrong => Wrong
         case OutOfFuel => OutOfFuel
         case Done(o, env2) =>
           Done(EndBreak(o), Leave(env1, env2, DeclaredInCases(cases))))
    case Break => Done(Broke, env)
    case Continue => Done(Continued, env)
    case Return(ret) =>
      match ret
      case None => Done(Returned(None), env)
      case Some(e) =>
        match Eval(e, env)
        case Undefined => Wrong
        case Value(v, env1) => Done(Returned(Some(v)), env1)
  }

  function ExecList(ss: Stmts, env: Env, fuel: nat): ExecResult
    decreases fuel, ss, 0
  {
    match ss
    case Nil => Done(Normal, env)
    case Cons(s, rest) =>
      match Exec(s, env, fuel)
      case Wrong => Wrong
      case OutOfFuel => OutOfFuel
      case Done(o, env1) => if o.Normal? then ExecList(rest, env1, fuel) else Done(o, env1)
  }

  /** The loop of a `for` whose initialisation has already run. */
  function ExecFor(c: Expr, step: Expr, loop: Stmt, env: Env, fuel: nat): ExecResult
    decreases fuel, loop, 1
  {
    match Eval(c, env)
    case Undefined => Wrong
    case Value(v, env1) =>
      if v == 0 then Done(Normal, env1)
      else
        match Exec(loop, env1, fuel)
        case Wrong => Wrong
        case OutOfFuel => OutOfFuel
        case Done(o, env2) =>
          if o.Normal? || o.Continued? then
            match Eval(step, env2)
            case Undefined => Wrong
            case Value(_, env3) =>
              if fuel == 0 then OutOfFuel else ExecFor(c, step, loop, env3, fuel - 1)
          else Done(EndBreak(o), env2)
  }

  /** Control enters at the first case whose constant equals v, at the
      default if there is none. */
  function ExecSwitch(v: int, cases: Cases, env: Env, fuel: nat): ExecResult
    decreases fuel, cases, 1
  {
    match cases
    case Default(_) => ExecCases(cases, env, fuel)
    case Case(k, _, rest) =>
      if v == Wrap(k) then ExecCases(cases, env, fuel) else ExecSwitch(v, rest, env, fuel)
  }

  /** Case bodies run in order, falling through into the default. */
  function ExecCases(cases: Cases, env: Env, fuel: nat): ExecResult
    decreases fuel, cases, 0
  {
    match cases
    case Default(ss) => ExecList(ss, env, fuel)
    case Case(_, ss, rest) =>
      match ExecList(ss, env, fuel)
      case Wrong => Wrong
      case OutOfFuel => OutOfFuel
      case Done(o, env1) => if o.Normal? then ExecCases(rest, env1, fuel) else Done(o, env1)
  }
}
