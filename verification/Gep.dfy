/** Lowering of element accesses to address arithmetic: constant indices are
    folded, other indices are extended and multiplied. */
module Gep {
  import opened Words
  import opened TypeLayout

  datatype Base = StackBase(slot: nat) | GlobalBase(symbol: string) | RegBase(v: nat)

  datatype Index = ConstIndex(n: int) | RegIndex(v: nat, width: nat)

  datatype LInstr =
    | StackAddress(dst: nat, slot: nat, offset: int)
    | GlobalAddress(dst: nat, symbol: string)
    | MovImm(dst: nat, n: int)
    | Mov(dst: nat, src: nat)
    | Sext(dst: nat, src: nat, width: nat)
    | Mul(dst: nat, a: nat, b: nat)
    | AddReg(dst: nat, a: nat, b: nat)
    | AddImm(dst: nat, a: nat, n: int)

  const POINTER_SIZE: nat := 64

  // ---------------------------------------------------------------------
  // Meaning
  // ---------------------------------------------------------------------

  /** Where slots and symbols are. */
  datatype Places = Places(slot: nat -> int, symbol: string -> int)

  function Step(e: Places, i: LInstr, regs: map<nat, int>): map<nat, int> {
    match i
    case StackAddress(dst, slot, offset) => regs[dst := e.slot(slot) + offset]
    case GlobalAddress(dst, symbol) => regs[dst := e.symbol(symbol)]
    case MovImm(dst, n) => regs[dst := n]
    case Mov(dst, src) => regs[dst := Get(regs, src)]
    case Sext(dst, src, width) => regs[dst := LowSigned(Get(regs, src), width)]
    case Mul(dst, a, b) => regs[dst := Get(regs, a) * Get(regs, b)]
    case AddReg(dst, a, b) => regs[dst := Get(regs, a) + Get(regs, b)]
    case AddImm(dst, a, n) => regs[dst := Get(regs, a) + n]
  }

  function Run(e: Places, code: seq<LInstr>, regs: map<nat, int>): map<nat, int> {
    if code == [] then regs else Step(e, code[|code| - 1], Run(e, code[..|code| - 1], regs))
  }

  function BaseValue(e: Places, b: Base, regs: map<nat, int>): int {
    match b
    case StackBase(slot) => e.slot(slot)
    case GlobalBase(symbol) => e.symbol(symbol)
    case RegBase(v) => Get(regs, v)
  }

  /** Registers narrower than 64 bits hold signed indices. */
  function IndexValue(i: Index, regs: map<nat, int>): int {
    match i
    case ConstIndex(n) => n
    case RegIndex(v, width) => if width < 64 then LowSigned(Get(regs, v), width) else Get(regs, v)
  }

  // ---------------------------------------------------------------------
  // Lowering
  // ---------------------------------------------------------------------

  /** The byte offset of a constant index, computed in unsigned 32 bits. */
  function ConstantPart(t: IRType, n: int): nat
    requires t.Struct? ==> 0 <= n < Count(t.members)
  {
    if t.Data? then Unsigned(ElemSize(t, 0) * n) else ElemByteOffset32(t.members, n)
  }

  /** The size of an element as computed, in unsigned 32 bits. */
  function ElemStep(t: IRType): nat
    requires t.Data?
  {
    Unsigned(ElemSize(t, 0))
  }

  /** The offset of a stack operand is a signed 32-bit number. */
  function StackOffset(part: nat): int { Wrap(part) }

  /** What the source of an element access must be for the index at hand. */
  predicate CanIndex(t: IRType, i: Index) {
    t.Struct? ==> i.ConstIndex? && 0 <= i.n < Count(t.members)
  }

  /** The address of the base, if it has to be taken. */
  function TakeBase(dst: nat, b: Base): seq<LInstr> {
    match b
    case StackBase(slot) => [StackAddress(dst, slot, 0)]
    case GlobalBase(symbol) => [GlobalAddress(dst, symbol)]
    case RegBase(_) => []
  }

  function BaseReg(dst: nat, b: Base): nat {
    if b.RegBase? then b.v else dst
  }

  /** The index times the size of an element, into the last register made. */
  function ScaleCode(v: nat, width: nat, size: nat, n: nat): seq<LInstr> {
    var narrow := width < POINTER_SIZE;
    if size == 1 then [if narrow then Sext(n, v, width) else Mov(n, v)]
    else if narrow then [MovImm(n, size), Sext(n + 1, v, width), Mul(n + 2, n + 1, n)]
    else [MovImm(n, size), Mul(n + 1, v, n)]
  }

  /** The code of an element access; n is the first fresh register. */
  function GepCode(dst: nat, b: Base, t: IRType, i: Index, n: nat): seq<LInstr>
    requires CanIndex(t, i)
  {
    match i
    case ConstIndex(k) =>
      var part := ConstantPart(t, k);
      if part == 0 && !b.RegBase? then TakeBase(dst, b)
      else if b.StackBase? then [StackAddress(dst, b.slot, StackOffset(part))]
      else TakeBase(dst, b) + [AddImm(dst, BaseReg(dst, b), part)]
    case RegIndex(v, width) =>
      var scale := ScaleCode(v, width, ElemStep(t), n);
      TakeBase(dst, b) + scale + [AddReg(dst, BaseReg(dst, b), n + |scale| - 1)]
  }

  method LowerGEP(dst: nat, b: Base, t: IRType, i: Index, nextVReg: nat) returns (code: seq<LInstr>, next: nat)
    requires CanIndex(t, i)
    ensures code == GepCode(dst, b, t, i, nextVReg)
    ensures next == nextVReg + if i.RegIndex? then |ScaleCode(i.v, i.width, ElemStep(t), nextVReg)| else 0
  {
    next := nextVReg;
    code := TakeBase(dst, b);
    if i.ConstIndex? {
      var part;
      if t.Data? {
        var size := CalcElemSize(t, 0);
        UnsignedProduct(ElemSize(t, 0), i.n);
        part := Unsigned(size * i.n);
      } else {
        part := GetElemByteOffset(t.members, i.n);
      }
      if part == 0 && !b.RegBase? {
        return;
      }
      if b.StackBase? {
        code := [StackAddress(dst, b.slot, StackOffset(part))];
        return;
      }
      code := code + [AddImm(dst, BaseReg(dst, b), part)];
    } else {
      var size := CalcElemSize(t, 0);
      ghost var scale: seq<LInstr> := [];
      var scaled := next;
      next := next + 1;
      if size == 1 {
        var extend := if i.width < POINTER_SIZE then Sext(scaled, i.v, i.width) else Mov(scaled, i.v);
        code, scale := code + [extend], scale + [extend];
      } else {
        var imm := scaled;
        code, scale := code + [MovImm(imm, size)], scale + [MovImm(imm, size)];
        var wide := i.v;
        if i.width < POINTER_SIZE {
          wide := next;
          next := next + 1;
          code, scale := code + [Sext(wide, i.v, i.width)], scale + [Sext(wide, i.v, i.width)];
        }
        scaled := next;
        next := next + 1;
        code, scale := code + [Mul(scaled, wide, imm)], scale + [Mul(scaled, wide, imm)];
      }
      assert code == TakeBase(dst, b) + scale;
      assert scale == ScaleCode(i.v, i.width, size, nextVReg);
      code := code + [AddReg(dst, BaseReg(dst, b), scaled)];
    }
  }

  lemma RunSnoc(e: Places, code: seq<LInstr>, i: LInstr, regs: map<nat, int>)
    ensures Run(e, code + [i], regs) == Step(e, i, Run(e, code, regs))
  {
    assert (code + [i])[..|code|] == code;
  }

  lemma {:induction false} RunAppend(e: Places, a: seq<LInstr>, b: seq<LInstr>, regs: map<nat, int>)
    ensures Run(e, a + b, regs) == Run(e, b, Run(e, a, regs))
  {
    if b == [] {
      assert a + b == a;
    } else {
      var n := |b| - 1;
      assert a + b == (a + b[..n]) + [b[n]] && b == b[..n] + [b[n]];
      RunSnoc(e, a + b[..n], b[n], regs);
      RunSnoc(e, b[..n], b[n], Run(e, a, regs));
      RunAppend(e, a, b[..n], regs);
    }
  }

  lemma RunOne(e: Places, i: LInstr, regs: map<nat, int>)
    ensures Run(e, [i], regs) == Step(e, i, regs)
  {
    assert [i] == [] + [i];
    RunSnoc(e, [], i, regs);
  }

  lemma ScaleRuns(e: Places, v: nat, width: nat, size: nat, n: nat, regs: map<nat, int>)
    requires v < n
    ensures var code := ScaleCode(v, width, size, n);
            && |code| >= 1
            && Get(Run(e, code, regs), n + |code| - 1) == size * IndexValue(RegIndex(v, width), regs)
            && forall u: nat :: u < n ==> Get(Run(e, code, regs), u) == Get(regs, u)
  {
    hide LowSigned;
    if size == 1 {
      RunOne(e, if width < POINTER_SIZE then Sext(n, v, width) else Mov(n, v), regs);
    } else if width < POINTER_SIZE {
      Run3(e, MovImm(n, size), Sext(n + 1, v, width), Mul(n + 2, n + 1, n), regs);
      Commutes(size, IndexValue(RegIndex(v, width), regs));
    } else {
      Run2(e, MovImm(n, size), Mul(n + 1, v, n), regs);
      Commutes(size, IndexValue(RegIndex(v, width), regs));
    }
  }

  lemma Run2(e: Places, a: LInstr, b: LInstr, regs: map<nat, int>)
    ensures Run(e, [a, b], regs) == Step(e, b, Step(e, a, regs))
  {
    hide Step;
    assert [a, b] == [a] + [b];
    RunSnoc(e, [a], b, regs);
    RunOne(e, a, regs);
  }

  lemma Run3(e: Places, a: LInstr, b: LInstr, c: LInstr, regs: map<nat, int>)
    ensures Run(e, [a, b, c], regs) == Step(e, c, Step(e, b, Step(e, a, regs)))
  {
    hide Step;
    assert [a, b, c] == [a, b] + [c];
    RunSnoc(e, [a, b], c, regs);
    Run2(e, a, b, regs);
  }

  lemma Commutes(a: int, b: int)
    ensures a * b == b * a
  {
  }

  lemma TakeBaseRuns(e: Places, dst: nat, b: Base, regs: map<nat, int>)
    ensures var r := Run(e, TakeBase(dst, b), regs);
            && Get(r, BaseReg(dst, b)) == BaseValue(e, b, regs)
            && forall u: nat :: u != dst ==> Get(r, u) == Get(regs, u)
  {
    match b
    case StackBase(slot) => RunOne(e, StackAddress(dst, slot, 0), regs);
    case GlobalBase(symbol) => RunOne(e, GlobalAddress(dst, symbol), regs);
    case RegBase(_) =>
  }

  /** With an index in a register, the result is the base plus the index times
      the size of an element; no other register changes. */
  lemma RegisterIndexRuns(e: Places, dst: nat, b: Base, t: IRType, v: nat, width: nat, n: nat, regs: map<nat, int>)
    requires t.Data? && dst < n && v < n && (b.RegBase? ==> b.v < n) && (!b.RegBase? ==> v != dst)
    ensures var r := Run(e, GepCode(dst, b, t, RegIndex(v, width), n), regs);
            && Get(r, dst) == BaseValue(e, b, regs) + ElemStep(t) * IndexValue(RegIndex(v, width), regs)
            && forall u: nat :: u < n && u != dst ==> Get(r, u) == Get(regs, u)
  {
    hide ScaleCode, LowSigned, TakeBase, ElemStep, Run;
    var size := ElemStep(t);
    var scale := ScaleCode(v, width, size, n);
    var r1 := Run(e, TakeBase(dst, b), regs);
    var r2 := Run(e, scale, r1);
    TakeBaseRuns(e, dst, b, regs);
    ScaleRuns(e, v, width, size, n, r1);
    RunAppend(e, TakeBase(dst, b), scale, regs);
    RunSnoc(e, TakeBase(dst, b) + scale, AddReg(dst, BaseReg(dst, b), n + |scale| - 1), regs);
    assert b.RegBase? ==> TakeBase(dst, b) == [] && r1 == regs by {
      NoBase(dst, b);
      RunNothing(e, regs);
    }
    assert IndexValue(RegIndex(v, width), r1) == IndexValue(RegIndex(v, width), regs);
  }

  lemma NoBase(dst: nat, b: Base)
    ensures b.RegBase? ==> TakeBase(dst, b) == []
  {
  }

  /** With a constant index, the result is the base plus the distance of the
      element or member, folded in 32 bits; only for a struct of four gigabytes
      or more the offset of a member is not the wrapped distance. */
  lemma ConstantIndexRuns(e: Places, dst: nat, b: Base, t: IRType, k: int, n: nat, regs: map<nat, int>)
    requires CanIndex(t, ConstIndex(k))
    ensures var r := Run(e, GepCode(dst, b, t, ConstIndex(k), n), regs);
            var part := if t.Struct? then ElemByteOffset32(t.members, k) else Unsigned(Distance(t, k));
            && Get(r, dst) == BaseValue(e, b, regs) + (if b.StackBase? then Wrap(part) else part)
            && forall u: nat :: u != dst ==> Get(r, u) == Get(regs, u)
    ensures t.Struct? && AllSmall(t.members) ==> ElemByteOffset32(t.members, k) == Unsigned(Distance(t, k))
  {
    if t.Struct? ==> AllSmall(t.members) { ConstantPartIs(t, k); }
    FoldedRuns(e, dst, b, t, k, n, regs);
  }

  lemma FoldedRuns(e: Places, dst: nat, b: Base, t: IRType, k: int, n: nat, regs: map<nat, int>)
    requires CanIndex(t, ConstIndex(k))
    ensures var r := Run(e, GepCode(dst, b, t, ConstIndex(k), n), regs);
            var part := ConstantPart(t, k);
            && Get(r, dst) == BaseValue(e, b, regs) + (if b.StackBase? then StackOffset(part) else part)
            && forall u: nat :: u != dst ==> Get(r, u) == Get(regs, u)
  {
    hide ConstantPart, Wrap, ElemSize, TakeBase, Run;
    var part := ConstantPart(t, k);
    TakeBaseRuns(e, dst, b, regs);
    assert StackOffset(0) == 0 by { WrapOfZero(); }
    if part == 0 && !b.RegBase? {
    } else if b.StackBase? {
      RunOne(e, StackAddress(dst, b.slot, StackOffset(part)), regs);
    } else {
      RunSnoc(e, TakeBase(dst, b), AddImm(dst, BaseReg(dst, b), part), regs);
    }
  }

  lemma WrapOfZero()
    ensures Wrap(0) == 0
  {
  }

  /** How far the k-th element of an array, or the k-th member of a struct, is
      from its start: as far as those before it are long. */
  function Distance(t: IRType, k: int): int
    requires CanIndex(t, ConstIndex(k))
  {
    if t.Data? then ElemSize(t, 0) * k else ElemByteOffset(t.members, k)
  }

  lemma ConstantPartIs(t: IRType, k: int)
    requires CanIndex(t, ConstIndex(k)) && (t.Struct? ==> AllSmall(t.members))
    ensures ConstantPart(t, k) == Unsigned(Distance(t, k))
  {
    if t.Struct? {
      OffsetIsExact(t.members, k);
      MembersFit(t.members);
      MembersAreExact(t.members);
      OffsetFits(t.members, k);
    }
  }

  /** The folded form leads to the element or member exactly when its distance
      fits: from zero on in unsigned 32 bits, and for slots in signed 32 bits. */
  lemma FoldingIsExact(e: Places, dst: nat, b: Base, t: IRType, k: int, n: nat, regs: map<nat, int>)
    requires CanIndex(t, ConstIndex(k)) && (t.Struct? ==> AllSmall(t.members))
    ensures var offset := Distance(t, k);
            Get(Run(e, GepCode(dst, b, t, ConstIndex(k), n), regs), dst) == BaseValue(e, b, regs) + offset
            <==> if b.StackBase? then -TWO_TO_THE_31 <= offset < TWO_TO_THE_31 else 0 <= offset < TWO_TO_THE_32
  {
    hide GepCode, ConstantPart, Distance;
    var offset := Distance(t, k);
    ConstantIndexRuns(e, dst, b, t, k, n, regs);
    WrapUnsigned(offset);
    if b.StackBase? {
      WrapFits(offset);
    } else {
      UnsignedFits(offset);
    }
  }

  lemma WrapUnsigned(x: int)
    ensures Wrap(Unsigned(x)) == Wrap(x)
  {
    var q := x / TWO_TO_THE_32;
    assert x == Unsigned(x) + q * TWO_TO_THE_32;
    ModShift(Unsigned(x) + TWO_TO_THE_31, q, TWO_TO_THE_32);
  }

  lemma WrapFits(x: int)
    ensures Wrap(x) == x <==> -TWO_TO_THE_31 <= x < TWO_TO_THE_31
  {
  }

  lemma UnsignedFits(x: int)
    ensures Unsigned(x) == x <==> 0 <= x < TWO_TO_THE_32
  {
  }

  /** p[-1] for a pointer p to ints: the address is p plus four gigabytes minus
      four, with the index in a register p minus four. */
  lemma NegativeIndexFolds(e: Places, dst: nat, p: nat, v: nat, n: nat, regs: map<nat, int>)
    requires dst < n && v < n && p < n && IndexValue(RegIndex(v, 32), regs) == -1
    ensures var t := Data(32, []);
            && Get(Run(e, GepCode(dst, RegBase(p), t, ConstIndex(-1), n), regs), dst)
              == Get(regs, p) + TWO_TO_THE_32 - 4
            && Get(Run(e, GepCode(dst, RegBase(p), t, RegIndex(v, 32), n), regs), dst) == Get(regs, p) - 4
  {
    hide GepCode;
    var t := Data(32, []);
    ConstantIndexRuns(e, dst, RegBase(p), t, -1, n, regs);
    RegisterIndexRuns(e, dst, RegBase(p), t, v, 32, n, regs);
    assert ElemSize(t, 0) == 4;
    RemainderIsUnique(-4, TWO_TO_THE_32, -1, TWO_TO_THE_32 - 4);
  }

  // ---------------------------------------------------------------------
  // Several indices
  // ---------------------------------------------------------------------

  /** What the index selects. */
  function Selected(t: IRType, i: Index): IRType
    requires CanIndex(t, i)
  {
    if t.Data? then ReduceDimension(t) else Nth(t.members, i.n)
  }

  predicate CanAccess(t: IRType, indices: seq<Index>)
    decreases |indices|
  {
    indices == [] || (CanIndex(t, indices[0]) && CanAccess(Selected(t, indices[0]), indices[1..]))
  }

  /** The registers an element access takes, its result first. */
  function Taken(t: IRType, i: Index, n: nat): nat
    requires CanIndex(t, i)
  {
    1 + if i.RegIndex? then |ScaleCode(i.v, i.width, ElemStep(t), n + 1)| else 0
  }

  /** a[i].m[j]...: each access starts from the result of the one before, with
      the type of what that one selected. */
  function AccessCode(b: Base, t: IRType, indices: seq<Index>, n: nat): seq<LInstr>
    requires CanAccess(t, indices)
    decreases |indices|
  {
    if indices == [] then []
    else GepCode(n, b, t, indices[0], n + 1) + AccessCode(RegBase(n), Selected(t, indices[0]), indices[1..],
      n + Taken(t, indices[0], n))
  }

  /** The accesses of an expression, innermost first. */
  method LowerAccess(b: Base, t: IRType, indices: seq<Index>, nextVReg: nat) returns (code: seq<LInstr>)
    requires CanAccess(t, indices)
    ensures code == AccessCode(b, t, indices, nextVReg)
  {
    hide GepCode, ScaleCode;
    code := [];
    var base, reduced, rest, next := b, t, indices, nextVReg;
    assert code + AccessCode(base, reduced, rest, next) == AccessCode(b, t, indices, nextVReg);
    while rest != []
      invariant CanAccess(reduced, rest)
      invariant code + AccessCode(base, reduced, rest, next) == AccessCode(b, t, indices, nextVReg)
      decreases |rest|
    {
      var piece, after := LowerGEP(next, base, reduced, rest[0], next + 1);
      Regroup(code, piece, AccessCode(RegBase(next), Selected(reduced, rest[0]), rest[1..], after));
      code := code + piece;
      base, reduced, rest, next := RegBase(next), Selected(reduced, rest[0]), rest[1..], after;
    }
    assert code + [] == code;
  }

  /** The register that holds the address in the end. */
  function AccessReg(t: IRType, indices: seq<Index>, n: nat): nat
    requires CanAccess(t, indices) && indices != []
    decreases |indices|
  {
    if |indices| == 1 then n else AccessReg(Selected(t, indices[0]), indices[1..], n + Taken(t, indices[0], n))
  }

  /** The index has this value: one in a register was computed before, and the
      distance of a constant one fits. */
  ghost predicate IndexFits(t: IRType, i: Index, value: nat, n: nat, regs: map<nat, int>)
    requires CanIndex(t, i)
  {
    && IndexValue(i, regs) == value
    && (if i.RegIndex? then i.v < n && ElemSize(t, 0) < TWO_TO_THE_32 else Distance(t, i.n) < TWO_TO_THE_31)
    && (t.Struct? ==> AllSmall(t.members))
  }

  ghost predicate Indexes(t: IRType, indices: seq<Index>, values: seq<nat>, n: nat, regs: map<nat, int>)
    requires CanAccess(t, indices)
    decreases |indices|
  {
    && |indices| == |values|
    && (indices != [] ==>
          && IndexFits(t, indices[0], values[0], n, regs)
          && Indexes(Selected(t, indices[0]), indices[1..], values[1..], n, regs))
  }

  lemma {:induction false} IndexesKept(t: IRType, indices: seq<Index>, values: seq<nat>, n: nat, regs: map<nat, int>,
                                       n': nat, regs': map<nat, int>)
    requires CanAccess(t, indices) && Indexes(t, indices, values, n, regs) && n <= n'
    requires forall u: nat :: u < n ==> Get(regs', u) == Get(regs, u)
    ensures Indexes(t, indices, values, n', regs')
    decreases |indices|
  {
    hide ElemSize, LowSigned, Distance, CanIndex, Selected;
    if indices != [] {
      IndexesKept(Selected(t, indices[0]), indices[1..], values[1..], n, regs, n', regs');
    }
  }

  /** One access of the chain. */
  lemma OneAccessRuns(e: Places, b: Base, t: IRType, i: Index, value: nat, n: nat, regs: map<nat, int>)
    requires CanIndex(t, i) && (b.RegBase? ==> b.v < n) && IndexFits(t, i, value, n, regs)
    ensures var r := Run(e, GepCode(n, b, t, i, n + 1), regs);
            && Get(r, n) == BaseValue(e, b, regs) + Distance(t, value)
            && forall u: nat :: u < n ==> Get(r, u) == Get(regs, u)
  {
    hide GepCode, ElemSize, Run, LowSigned;
    if i.RegIndex? {
      UnsignedSmall(ElemSize(t, 0));
      RegisterIndexRuns(e, n, b, t, i.v, i.width, n + 1, regs);
    } else {
      if t.Data? {
        ProductIsNat(ElemSize(t, 0), value);
      }
      FoldingIsExact(e, n, b, t, i.n, n + 1, regs);
      ConstantIndexRuns(e, n, b, t, i.n, n + 1, regs);
    }
  }

  lemma ProductIsNat(a: nat, b: nat)
    ensures 0 <= a * b
  {
  }

  lemma {:induction false} AccessRuns(e: Places, b: Base, t: IRType, indices: seq<Index>, values: seq<nat>, n: nat,
                                      regs: map<nat, int>)
    requires CanAccess(t, indices) && indices != [] && (b.RegBase? ==> b.v < n) && Indexes(t, indices, values, n, regs)
    ensures Steps(t, values)
    ensures Get(Run(e, AccessCode(b, t, indices, n), regs), AccessReg(t, indices, n))
            == Follow(BaseValue(e, b, regs), t, values)
    decreases |indices|
  {
    hide GepCode, ElemSize, Run, ScaleCode, LowSigned;
    var reduced, rest := Selected(t, indices[0]), indices[1..];
    var code, next := GepCode(n, b, t, indices[0], n + 1), n + Taken(t, indices[0], n);
    var r := Run(e, code, regs);
    assert reduced == Element(t, values[0]);
    OneAccessRuns(e, b, t, indices[0], values[0], n, regs);
    RunAppend(e, code, AccessCode(RegBase(n), reduced, rest, next), regs);
    if |indices| == 1 {
      assert rest == [] && values[1..] == [];
      RunNothing(e, r);
    } else {
      IndexesKept(reduced, rest, values[1..], n, regs, next, r);
      AccessRuns(e, RegBase(n), reduced, rest, values[1..], next, r);
    }
  }

  lemma RunNothing(e: Places, regs: map<nat, int>)
    ensures Run(e, [], regs) == regs
  {
  }

  /** The main result about addresses: the emitted code for any path into arrays
      and structs ends at the byte the path names. */
  lemma AccessIsPath(e: Places, b: Base, t: IRType, indices: seq<Index>, values: seq<nat>, n: nat, regs: map<nat, int>)
    requires CanAccess(t, indices) && indices != [] && (b.RegBase? ==> b.v < n) && Indexes(t, indices, values, n, regs)
    requires InRange(t, PathOf(values))
    ensures Get(Run(e, AccessCode(b, t, indices, n), regs), AccessReg(t, indices, n))
            == BaseValue(e, b, regs) + PathOffset(t, PathOf(values))
  {
    hide Run, AccessCode, AccessReg, Follow, PathOffset, Indexes, InRange;
    AccessRuns(e, b, t, indices, values, n, regs);
    FollowIsPath(BaseValue(e, b, regs), t, values);
  }

  /** For an array, also with fewer indices than dimensions, that is the
      row-major address. */
  lemma AccessIsRowMajor(e: Places, b: Base, t: IRType, indices: seq<Index>, values: seq<nat>, n: nat, regs: map<nat,
                         int>)
    requires t.Data? && CanAccess(t, indices) && 0 < |indices| <= |t.dims| && (b.RegBase? ==> b.v < n)
    requires Indexes(t, indices, values, n, regs)
    ensures var k := |indices|;
            Get(Run(e, AccessCode(b, t, indices, n), regs), AccessReg(t, indices, n))
            == BaseValue(e, b, regs) + RowMajor(t.dims[..k], values) * (Product(t.dims[k..]) * (t.width / 8))
  {
    hide Run, AccessCode, AccessReg, Chain, Follow, RowMajor;
    AccessRuns(e, b, t, indices, values, n, regs);
    FollowIsChain(BaseValue(e, b, regs), t, values);
    ChainIsRowMajor(BaseValue(e, b, regs), t, values);
  }

  /** struct { int a; int b; } s: the code of s.b is the address of s plus four. */
  lemma SecondMember(e: Places, b: Base, n: nat, regs: map<nat, int>)
    requires b.RegBase? ==> b.v < n
    ensures var t, i := Struct(Member(Data(32, []), Member(Data(32, []), NoMembers))), ConstIndex(1);
            Get(Run(e, AccessCode(b, t, [i], n), regs), n) == BaseValue(e, b, regs) + 4
  {
    hide Run, AccessCode;
    var t, i := Struct(Member(Data(32, []), Member(Data(32, []), NoMembers))), ConstIndex(1);
    assert ByteSize(Data(32, [])) == 4;
    AccessIsPath(e, b, t, [i], [1], n, regs);
  }
}
