/** Code generation for expressions: the methods that walk the syntax tree and
    emit into the factory.  Each is proved to emit what Lowering says. */
module Codegen {
  import opened Words
  import opened Source
  import opened IR
  import opened Lowering
  import opened ExprCorrectness
  import opened Factory
  import opened Slots

  // ---------------------------------------------------------------------
  // Inverting a compare in place
  // ---------------------------------------------------------------------

  lemma InvertNothing(code: seq<Instr>, id: nat, lo: nat, hi: nat)
    requires ComparesIn(code, lo, hi) && (id < lo || hi <= id)
    ensures InvertIn(code, id) == code
  {
  }

  /** Inverting the compare an expression ended with leaves what was emitted
      before it, and what has been emitted since, alone. */
  lemma InvertEmitted(before: seq<Instr>, f: Frag, tail: seq<Instr>, id: nat)
    requires ComparesIn(before, 0, id) && ComparesIn(tail, 0, 0) && Fresh(f.val, id, f.id)
    ensures InvertTested(before + f.code + tail, f.val) == before + Tested(f) + tail
  {
    if f.val.CmpResult? {
      InvertAppend(before + f.code, tail, f.val.id);
      InvertAppend(before, f.code, f.val.id);
      InvertNothing(before, f.val.id, 0, id);
      InvertNothing(tail, f.val.id, 0, 0);
    }
  }

  // ---------------------------------------------------------------------
  // Concatenation
  // ---------------------------------------------------------------------

  lemma Concat3<T>(s: seq<T>, a: seq<T>, b: seq<T>, c: seq<T>)
    ensures s + (a + b + c) == s + a + b + c
  {
    Regroup(s, a + b, c);
    Regroup(s, a, b);
  }

  lemma Concat4<T>(s: seq<T>, a: seq<T>, b: seq<T>, c: seq<T>, d: seq<T>)
    ensures s + (a + b + c + d) == s + a + b + c + d
  {
    Regroup(s, a + b + c, d);
    Concat3(s, a, b, c);
  }

  lemma Concat7<T>(s: seq<T>, a: seq<T>, b: seq<T>, c: seq<T>, d: seq<T>, e: seq<T>, f: seq<T>, g: seq<T>)
    ensures s + (a + b + c + d + e + f + g) == s + a + b + c + d + e + f + g
  {
    Concat4(s, a + b + c + d, e, f, g);
    Concat4(s, a, b, c, d);
  }

  lemma Insert2<T>(s: seq<T>, a: T, b: T)
    ensures s + [a, b] == s + [a] + [b]
  {
  }

  lemma Insert3<T>(s: seq<T>, a: T, b: T, c: T)
    ensures s + [a, b, c] == s + [a] + [b] + [c]
  {
  }

  // ---------------------------------------------------------------------
  // Expressions
  // ---------------------------------------------------------------------

  /** The state after the value of f was tested and the branch was emitted. */
  function AfterTest(s: State, f: Frag, target: nat): State {
    s.(listing := s.listing + (Tested(f) + BranchIfZero(f.val, f.id, target)), allocs := s.allocs + f.allocs,
       id := IdAfterBranch(f.val, f.id), bb := f.bb)
  }

  /** Evaluates a condition and branches to target when it is zero. */
  method TestExpr(e: Expr, target: nat, IRF: IRFactory)
    requires IRF.Valid()
    modifies IRF
    ensures IRF.Valid()
    ensures IRF.st == AfterTest(old(IRF.st), Lower(e, old(IRF.st).id, old(IRF.st).bb, old(IRF.st).sym), target)
    decreases e, 4
  {
    hide Reserved, Resolves;
    ghost var f := Lower(e, IRF.st.id, IRF.st.bb, IRF.st.sym);
    ghost var before := IRF.st.listing;
    ghost var id := IRF.st.id;
    var val := GenerateExpr(e, IRF);
    IRF.BranchUnless(val, target);
    InvertEmitted(before, f, [], id);
  }

  /** Leaves the current block for target and opens the next one. */
  method CloseBlock(target: nat, next: nat, base: string, IRF: IRFactory)
    requires IRF.Valid() && base in BASES
    modifies IRF
    ensures IRF.Valid()
    ensures IRF.st == old(IRF.st).(listing := old(IRF.st).listing + [Jump(target), Label(next)])
  {
    hide IRFactory.Valid, Reserved, Resolves;
    IRF.Insert(Jump(target));
    IRF.InsertBB(next, base);
    Insert2(old(IRF.st).listing, Jump(target), Label(next));
  }

  /** Stores one arm's value and leaves for end. */
  method CloseArm(val: Operand, slot: nat, end: nat, next: nat, base: string, IRF: IRFactory)
    requires IRF.Valid() && base in BASES
    modifies IRF
    ensures IRF.Valid()
    ensures IRF.st == old(IRF.st).(listing := old(IRF.st).listing + [Store(val, slot), Jump(end), Label(next)])
  {
    hide IRFactory.Valid, Reserved, Resolves;
    IRF.Insert(Store(val, slot));
    IRF.Insert(Jump(end));
    IRF.InsertBB(next, base);
    Insert3(old(IRF.st).listing, Store(val, slot), Jump(end), Label(next));
  }

  function NotEnd(slot: nat, yes: nat, end: nat, id: nat): seq<Instr> {
    [Label(yes), Store(Const(0), slot), Jump(end), Label(end), Load(id, slot)]
  }

  method FinishNot(slot: nat, yes: nat, end: nat, IRF: IRFactory) returns (val: Operand)
    requires IRF.Valid()
    modifies IRF
    ensures IRF.Valid() && val == Reg(old(IRF.st).id)
    ensures IRF.st == old(IRF.st).(listing := old(IRF.st).listing + NotEnd(slot, yes, end, val.id), id := val.id + 1)
  {
    hide IRFactory.Valid, Reserved, Resolves;
    IRF.InsertBB(yes, "not_true");
    CloseArm(Const(0), slot, end, end, "not_final", IRF);
    val := IRF.CreateLD(slot);
    Concat3(old(IRF.st).listing, [Label(yes)], [Store(Const(0), slot), Jump(end), Label(end)], [Load(val.id, slot)]);
    assert NotEnd(slot, yes, end, val.id)
        == [Label(yes)] + [Store(Const(0), slot), Jump(end), Label(end)] + [Load(val.id, slot)];
  }

  method GenerateNot(e: Expr, IRF: IRFactory) returns (val: Operand)
    requires IRF.Valid()
    modifies IRF
    ensures IRF.Valid()
    ensures var f := NotCode(Lower(e, old(IRF.st).id, old(IRF.st).bb, old(IRF.st).sym));
            val == f.val && IRF.st == After(old(IRF.st), f)
    decreases Not(e), 1
  {
    hide IRFactory.Valid, Reserved, Resolves, NotCode, NotEnd, Lower, Tested, BranchIfZero, ComparesIn, InvertTested,
      IdAfterBranch, Fresh;
    ghost var f := Lower(e, IRF.st.id, IRF.st.bb, IRF.st.sym);
    ghost var s := IRF.st;
    IRF.ComparesNumbered();
    val := GenerateExpr(e, IRF);
    var yes := IRF.NewBlock();
    var end := IRF.NewBlock();
    var slot := IRF.CreateSA();
    IRF.Insert(Store(Const(1), slot));
    NotEmits(s, f);
    IRF.BranchUnless(val, end);
    val := FinishNot(slot, yes, end, IRF);
    Regroup(s.allocs, f.allocs, [slot]);
  }

  lemma NotEmits(s: State, f: Frag)
    requires ComparesIn(s.listing, 0, s.id) && Fresh(f.val, s.id, f.id)
    ensures var slot, yes, end := f.id, f.bb, f.bb + 1;
            && NotCode(f).id == IdAfterBranch(f.val, slot + 1) + 1 && NotCode(f).bb == f.bb + 2
            && NotCode(f).val == Reg(IdAfterBranch(f.val, slot + 1)) && NotCode(f).allocs == f.allocs + [slot]
            && InvertTested(s.listing + f.code + [Store(Const(1), slot)], f.val)
               == s.listing + Tested(f) + [Store(Const(1), slot)]
            && s.listing + NotCode(f).code
               == s.listing + Tested(f) + [Store(Const(1), slot)] + BranchIfZero(f.val, slot + 1, end)
                  + NotEnd(slot, yes, end, IdAfterBranch(f.val, slot + 1))
  {
    hide Tested, BranchIfZero;
    InvertEmitted(s.listing, f, [Store(Const(1), f.id)], s.id);
    Concat4(s.listing, Tested(f), [Store(Const(1), f.id)], BranchIfZero(f.val, f.id + 1, f.bb + 1),
            NotEnd(f.id, f.bb, f.bb + 1, IdAfterBranch(f.val, f.id + 1)));
  }

  function AndEnd(slot: nat, bb: nat, id: nat): seq<Instr> {
    var yes, no, end := bb + 1, bb + 2, bb + 3;
    [Label(yes), Store(Const(1), slot), Jump(end),
     Label(no), Store(Const(0), slot), Jump(end),
     Label(end), Load(id, slot)]
  }

  method FinishAnd(slot: nat, bb: nat, IRF: IRFactory) returns (val: Operand)
    requires IRF.Valid()
    modifies IRF
    ensures IRF.Valid() && val == Reg(old(IRF.st).id)
    ensures IRF.st == old(IRF.st).(listing := old(IRF.st).listing + AndEnd(slot, bb, val.id), id := val.id + 1)
  {
    hide IRFactory.Valid, Reserved, Resolves;
    ghost var l := IRF.st.listing;
    var yes, no, end := bb + 1, bb + 2, bb + 3;
    IRF.InsertBB(yes, "true");
    CloseArm(Const(1), slot, end, no, "false", IRF);
    CloseArm(Const(0), slot, end, end, "final", IRF);
    val := IRF.CreateLD(slot);
    Concat4(l, [Label(yes)], [Store(Const(1), slot), Jump(end), Label(no)],
            [Store(Const(0), slot), Jump(end), Label(end)], [Load(val.id, slot)]);
    assert AndEnd(slot, bb, val.id) == [Label(yes)] + [Store(Const(1), slot), Jump(end), Label(no)]
                                       + [Store(Const(0), slot), Jump(end), Label(end)] + [Load(val.id, slot)];
  }

  method GenerateLogicalAnd(l: Expr, r: Expr, IRF: IRFactory) returns (val: Operand)
    requires IRF.Valid()
    modifies IRF
    ensures IRF.Valid()
    ensures var f := Lower(LogicalAnd(l, r), old(IRF.st).id, old(IRF.st).bb, old(IRF.st).sym);
            val == f.val && IRF.st == After(old(IRF.st), f)
    decreases LogicalAnd(l, r), 1
  {
    hide IRFactory.Valid, Reserved, Resolves, Lower, Tested, BranchIfZero, IdAfterBranch, Fresh, ReturnsCompare,
      LogicalAndCode, AndEnd;
    ghost var s := IRF.st;
    ghost var fl := Lower(l, s.id + 1, s.bb + 4, s.sym);
    ghost var fr := Lower(r, IdAfterBranch(fl.val, fl.id), fl.bb, s.sym);
    AndUnfolds(l, r, s);
    AndEmits(s, fl, fr);
    var rhs := IRF.NewBlock();
    var yes := IRF.NewBlock();
    var no := IRF.NewBlock();
    var end := IRF.NewBlock();
    var slot := IRF.CreateSA();
    IRF.Insert(Store(Const(0), slot));
    TestExpr(l, no, IRF);
    IRF.InsertBB(rhs, "test_RHS");
    TestExpr(r, no, IRF);
    val := FinishAnd(slot, rhs, IRF);
  }

  lemma AndUnfolds(l: Expr, r: Expr, s: State)
    ensures var fl := Lower(l, s.id + 1, s.bb + 4, s.sym);
            var fr := Lower(r, IdAfterBranch(fl.val, fl.id), fl.bb, s.sym);
            Lower(LogicalAnd(l, r), s.id, s.bb, s.sym) == LogicalAndCode(s.id, s.bb, fl, fr)
  {
    hide LogicalAndCode, NotCode, TernaryCode, MakeOperands, Fresh, ReturnsCompare, IdAfterBranch;
  }

  lemma AndEmits(s: State, l: Frag, r: Frag)
    ensures var f := LogicalAndCode(s.id, s.bb, l, r);
            && f.id == IdAfterBranch(r.val, r.id) + 1 && f.bb == r.bb && f.val == Reg(IdAfterBranch(r.val, r.id))
            && s.allocs + f.allocs == s.allocs + [s.id] + l.allocs + r.allocs
            && s.listing + f.code
               == s.listing + [Store(Const(0), s.id)] + (Tested(l) + BranchIfZero(l.val, l.id,
                 s.bb + 2)) + [Label(s.bb)]
                  + (Tested(r) + BranchIfZero(r.val, r.id, s.bb + 2)) + AndEnd(s.id, s.bb, IdAfterBranch(r.val, r.id))
  {
    hide Tested, BranchIfZero;
    var id := IdAfterBranch(r.val, r.id);
    var tl, bl, tr, br := Tested(l), BranchIfZero(l.val, l.id, s.bb + 2), Tested(r),
      BranchIfZero(r.val, r.id, s.bb + 2);
    Concat3(s.allocs, [s.id], l.allocs, r.allocs);
    Concat7(s.listing, [Store(Const(0), s.id)], tl, bl, [Label(s.bb)], tr, br, AndEnd(s.id, s.bb, id));
    Regroup(s.listing + [Store(Const(0), s.id)], tl, bl);
    Regroup(s.listing + [Store(Const(0), s.id)] + tl + bl + [Label(s.bb)], tr, br);
  }

  method GenerateTernary(c: Expr, t: Expr, f: Expr, IRF: IRFactory) returns (val: Operand)
    requires IRF.Valid()
    modifies IRF
    ensures IRF.Valid()
    ensures var g := Lower(Ternary(c, t, f), old(IRF.st).id, old(IRF.st).bb, old(IRF.st).sym);
            val == g.val && IRF.st == After(old(IRF.st), g)
    decreases Ternary(c, t, f), 1
  {
    hide IRFactory.Valid, Reserved, Resolves, Lower, Tested, BranchIfZero, IdAfterBranch, Fresh, ReturnsCompare,
      TernaryCode;
    ghost var s := IRF.st;
    ghost var fc := Lower(c, s.id, s.bb + 3, s.sym);
    ghost var ft := Lower(t, IdAfterBranch(fc.val, fc.id), fc.bb, s.sym);
    ghost var ff := Lower(f, ft.id + 1, ft.bb, s.sym);
    TernaryUnfolds(c, t, f, s);
    TernaryEmits(s, fc, ft, ff);
    var yes := IRF.NewBlock();
    var no := IRF.NewBlock();
    var end := IRF.NewBlock();
    TestExpr(c, no, IRF);
    IRF.InsertBB(yes, "true");
    val := GenerateExpr(t, IRF);
    var slot := IRF.CreateSA();
    CloseArm(val, slot, end, no, "false", IRF);
    GenerateLastArm(f, slot, end, IRF);
    val := Slot(slot);
  }

  method GenerateLastArm(e: Expr, slot: nat, end: nat, IRF: IRFactory)
    requires IRF.Valid()
    modifies IRF
    ensures IRF.Valid()
    ensures var s := old(IRF.st);
            var g := Lower(e, s.id, s.bb, s.sym);
            IRF.st == s.(listing := s.listing + g.code + [Store(g.val, slot), Jump(end), Label(end)],
              allocs := s.allocs + g.allocs,
                         id := g.id, bb := g.bb)
    decreases e, 4
  {
    hide IRFactory.Valid, Reserved, Resolves, Lower;
    var val := GenerateExpr(e, IRF);
    CloseArm(val, slot, end, end, "end", IRF);
  }

  lemma TernaryUnfolds(c: Expr, t: Expr, f: Expr, s: State)
    ensures var fc := Lower(c, s.id, s.bb + 3, s.sym);
            var ft := Lower(t, IdAfterBranch(fc.val, fc.id), fc.bb, s.sym);
            var ff := Lower(f, ft.id + 1, ft.bb, s.sym);
            Lower(Ternary(c, t, f), s.id, s.bb, s.sym) == TernaryCode(s.bb, fc, ft, ff)
  {
    hide LogicalAndCode, NotCode, TernaryCode, MakeOperands, Fresh, ReturnsCompare, IdAfterBranch;
  }

  lemma TernaryEmits(s: State, c: Frag, t: Frag, f: Frag)
    ensures var g := TernaryCode(s.bb, c, t, f);
            && s.allocs + g.allocs == s.allocs + c.allocs + t.allocs + [t.id] + f.allocs
            && s.listing + g.code
               == s.listing + (Tested(c) + BranchIfZero(c.val, c.id, s.bb + 1)) + [Label(s.bb)]
                  + t.code + [Store(t.val, t.id), Jump(s.bb + 2), Label(s.bb + 1)]
                  + f.code + [Store(f.val, t.id), Jump(s.bb + 2), Label(s.bb + 2)]
  {
    hide Tested, BranchIfZero;
    Concat4(s.allocs, c.allocs, t.allocs, [t.id], f.allocs);
    Concat7(s.listing, Tested(c), BranchIfZero(c.val, c.id, s.bb + 1), [Label(s.bb)], t.code,
            [Store(t.val, t.id), Jump(s.bb + 2), Label(s.bb + 1)],
            f.code, [Store(f.val, t.id), Jump(s.bb + 2), Label(s.bb + 2)]);
    Regroup(s.listing, Tested(c), BranchIfZero(c.val, c.id, s.bb + 1));
  }

  /** Both operands of e, left first. */
  method GenerateOperands(e: Expr, l: Expr, r: Expr, commutative: bool, IRF: IRFactory) returns (a: Operand, b: Operand)
    requires IRF.Valid() && l < e && r < e
    modifies IRF
    ensures IRF.Valid()
    ensures var s := old(IRF.st);
            var fl := Lower(l, s.id, s.bb, s.sym);
            var o := MakeOperands(fl, Lower(r, fl.id, fl.bb, s.sym), commutative);
            && a == o.a && b == o.b
            && IRF.st == s.(listing := s.listing + o.code, allocs := s.allocs + o.allocs, id := o.id, bb := o.bb)
    decreases e, 1
  {
    hide IRFactory.Valid, Reserved, Resolves, Lower, Fresh, ReturnsCompare;
    ghost var s := IRF.st;
    ghost var fl := Lower(l, s.id, s.bb, s.sym);
    ghost var fr := Lower(r, fl.id, fl.bb, s.sym);
    a := GenerateExpr(l, IRF);
    b := GenerateExpr(r, IRF);
    Regroup(s.allocs, fl.allocs, fr.allocs);
    Regroup(s.listing, fl.code, fr.code);
    if a.Const? && !b.Const? && commutative {
      a, b := b, a;
    }
    if a.Const? {
      Concat3(s.listing, fl.code, fr.code, [Mov(fr.id, a)]);
      a := IRF.CreateMOV(a);
    }
  }

  method GenerateBinary(op: BinOp, l: Expr, r: Expr, IRF: IRFactory) returns (val: Operand)
    requires IRF.Valid()
    modifies IRF
    ensures IRF.Valid()
    ensures var f := Lower(Binary(op, l, r), old(IRF.st).id, old(IRF.st).bb, old(IRF.st).sym);
            val == f.val && IRF.st == After(old(IRF.st), f)
    decreases Binary(op, l, r), 2
  {
    hide IRFactory.Valid, Reserved, Resolves, MakeOperands, Fresh, ReturnsCompare;
    ghost var s := IRF.st;
    ghost var fl := Lower(l, s.id, s.bb, s.sym);
    ghost var o := MakeOperands(fl, Lower(r, fl.id, fl.bb, s.sym), CommutativeOp(op));
    var a, b := GenerateOperands(Binary(op, l, r), l, r, CommutativeOp(op), IRF);
    val := IRF.CreateBin(op, a, b);
    Regroup(s.listing, o.code, [Bin(o.id, op, o.a, o.b)]);
  }

  method GenerateCompare(rel: CompRel, l: Expr, r: Expr, IRF: IRFactory) returns (val: Operand)
    requires IRF.Valid()
    modifies IRF
    ensures IRF.Valid()
    ensures var f := Lower(Compare(rel, l, r), old(IRF.st).id, old(IRF.st).bb, old(IRF.st).sym);
            val == f.val && IRF.st == After(old(IRF.st), f)
    decreases Compare(rel, l, r), 2
  {
    hide IRFactory.Valid, Reserved, Resolves, MakeOperands, Fresh, ReturnsCompare;
    ghost var s := IRF.st;
    ghost var fl := Lower(l, s.id, s.bb, s.sym);
    ghost var o := MakeOperands(fl, Lower(r, fl.id, fl.bb, s.sym), CommutativeRel(rel));
    var a, b := GenerateOperands(Compare(rel, l, r), l, r, CommutativeRel(rel), IRF);
    val := IRF.CreateCMP(rel, a, b);
    Regroup(s.listing, o.code, [Cmp(o.id, rel, o.a, o.b)]);
  }

  /** A `x++` or `x--`: the value is the one before the change. */
  method GeneratePost(x: string, increment: bool, IRF: IRFactory) returns (val: Operand)
    requires IRF.Valid()
    modifies IRF
    ensures IRF.Valid()
    ensures var f := Lower(Post(x, increment), old(IRF.st).id, old(IRF.st).bb, old(IRF.st).sym);
            val == f.val && IRF.st == After(old(IRF.st), f)
  {
    hide IRFactory.Valid, Reserved, Resolves;
    ghost var s := IRF.st;
    var slot := IRF.GetSymbolValue(x);
    val := IRF.CreateLD(slot);
    var changed := IRF.CreateBin(if increment then ADD else SUB, val, Const(1));
    IRF.Insert(Store(changed, slot));
    Insert3(s.listing, Load(val.id, slot), Bin(changed.id, if increment then ADD else SUB, val, Const(1)),
      Store(changed, slot));
    Nothing(s.allocs);
  }

  lemma Nothing<T>(s: seq<T>)
    ensures s + [] == s
  {
  }

  /** The right side is evaluated before the variable is looked up. */
  method GenerateAssign(x: string, e: Expr, IRF: IRFactory) returns (val: Operand)
    requires IRF.Valid()
    modifies IRF
    ensures IRF.Valid()
    ensures var f := Lower(Assign(x, e), old(IRF.st).id, old(IRF.st).bb, old(IRF.st).sym);
            val == f.val && IRF.st == After(old(IRF.st), f)
    decreases Assign(x, e), 1
  {
    hide IRFactory.Valid, Reserved, Resolves, Fresh, ReturnsCompare;
    ghost var s := IRF.st;
    ghost var f := Lower(e, s.id, s.bb, s.sym);
    val := GenerateExpr(e, IRF);
    var slot := IRF.GetSymbolValue(x);
    IRF.Insert(Store(val, slot));
    Regroup(s.listing, f.code, [Store(val, slot)]);
  }

  method GenerateOpAssign(op: AssignOp, x: string, e: Expr, IRF: IRFactory) returns (val: Operand)
    requires IRF.Valid()
    modifies IRF
    ensures IRF.Valid()
    ensures var f := Lower(OpAssign(op, x, e), old(IRF.st).id, old(IRF.st).bb, old(IRF.st).sym);
            val == f.val && IRF.st == After(old(IRF.st), f)
    decreases OpAssign(op, x, e), 1
  {
    hide IRFactory.Valid, Reserved, Resolves, Fresh, ReturnsCompare;
    ghost var s := IRF.st;
    ghost var f := Lower(e, s.id, s.bb, s.sym);
    var r := GenerateExpr(e, IRF);
    var slot := IRF.GetSymbolValue(x);
    var l := IRF.CreateLD(slot);
    val := IRF.CreateBin(op, l, r);
    IRF.Insert(Store(val, slot));
    Insert3(s.listing + f.code, Load(l.id, slot), Bin(val.id, op, l, r), Store(val, slot));
    Regroup(s.listing, f.code, [Load(l.id, slot), Bin(val.id, op, l, r), Store(val, slot)]);
  }

  method GenerateMinus(e: Expr, IRF: IRFactory) returns (val: Operand)
    requires IRF.Valid()
    modifies IRF
    ensures IRF.Valid()
    ensures var f := Lower(Minus(e), old(IRF.st).id, old(IRF.st).bb, old(IRF.st).sym);
            val == f.val && IRF.st == After(old(IRF.st), f)
    decreases Minus(e), 1
  {
    hide IRFactory.Valid, Reserved, Resolves, Fresh, ReturnsCompare;
    ghost var s := IRF.st;
    if e.Literal? {
      val := Const(-e.n);
      Nothing(s.listing);
      Nothing(s.allocs);
    } else {
      ghost var f := Lower(e, s.id, s.bb, s.sym);
      var r := GenerateExpr(e, IRF);
      val := IRF.CreateBin(SUB, Const(0), r);
      Regroup(s.listing, f.code, [Bin(f.id, SUB, Const(0), r)]);
    }
  }

  method GenerateExpr(e: Expr, IRF: IRFactory) returns (val: Operand)
    requires IRF.Valid()
    modifies IRF
    ensures IRF.Valid()
    ensures var f := Lower(e, old(IRF.st).id, old(IRF.st).bb, old(IRF.st).sym);
            val == f.val && IRF.st == After(old(IRF.st), f)
    ensures Reserved(old(IRF.st)) && Resolves(e, old(IRF.st).sym.Keys) ==>
              Reserved(IRF.st) && OperandIn(val, Elements(IRF.st.allocs))
    decreases e, 3
  {
    ExprReserves(e, IRF.st);
    hide IRFactory.Valid, Reserved, Resolves, Fresh, ReturnsCompare, NotCode, LogicalAndCode, TernaryCode,
      MakeOperands, BinaryCode,
         CompareCode, MinusCode, AssignCode, OpAssignCode, PostCode, OperandIn;
    Nothing(IRF.st.listing);
    Nothing(IRF.st.allocs);
    match e {
      case Literal(n) => val := Const(n);
      case Var(x) =>
        var slot := IRF.GetSymbolValue(x);
        val := IRF.CreateLD(slot);
      case Not(e) => val := GenerateNot(e, IRF);
      case Minus(e) => val := GenerateMinus(e, IRF);
      case Post(x, increment) => val := GeneratePost(x, increment, IRF);
      case Binary(op, l, r) => val := GenerateBinary(op, l, r, IRF);
      case Compare(rel, l, r) => val := GenerateCompare(rel, l, r, IRF);
      case LogicalAnd(l, r) => val := GenerateLogicalAnd(l, r, IRF);
      case Assign(x, e) => val := GenerateAssign(x, e, IRF);
      case OpAssign(op, x, e) => val := GenerateOpAssign(op, x, e, IRF);
      case Ternary(c, t, f) => val := GenerateTernary(c, t, f, IRF);
    }
  }
}
