/** The whole allocator: parameters and return values get the registers of the
    calling convention, the linear scan places the rest, and the operands are
    rewritten. */
module RegisterAllocation {
  import opened Words
  import opened Registers
  import opened LiveRanges
  import opened LinearScan
  import opened RegMachine

  datatype Param = Param(id: nat, width: nat)

  /** A function: its parameters, its instructions, and where its last block
      begins. */
  datatype MFunction = MFunction(params: seq<Param>, code: seq<MInstr>, lastBlock: nat)

  // ---------------------------------------------------------------------
  // Pre-allocation
  // ---------------------------------------------------------------------

  function ParamReg(k: nat, width: nat): nat {
    if width <= 32 then W0 + k else X0 + k
  }

  function ParamRegs(params: seq<Param>): map<nat, nat> {
    if params == [] then map[]
    else
      var n := |params| - 1;
      ParamRegs(params[..n])[params[n].id := ParamReg(n, params[n].width)]
  }

  function ParamRanges(params: seq<Param>): map<nat, Range> {
    if params == [] then map[]
    else ParamRanges(params[..|params| - 1])[params[|params| - 1].id := Range(0, NEVER)]
  }

  lemma {:induction false} ParamRangesFromStart(params: seq<Param>)
    ensures FromStart(ParamRanges(params)) && ParamRanges(params).Keys == ParamRegs(params).Keys
  {
    if params != [] {
      ParamRangesFromStart(params[..|params| - 1]);
    }
  }

  /** No later parameter has the number of the k-th. */
  ghost predicate LastOfItsNumber(params: seq<Param>, k: nat) {
    k < |params| && forall j :: k < j < |params| ==> params[j].id != params[k].id
  }

  ghost predicate HasNumber(params: seq<Param>, v: nat) {
    exists k :: 0 <= k < |params| && params[k].id == v
  }

  /** The parameter is in the k-th argument register, or in its lower half if 32
      bits are enough. */
  ghost predicate InArgument(regOf: map<nat, nat>, param: Param, k: nat) {
    && param.id in regOf && Parent(regOf[param.id]) == X0 + k
    && Width(regOf[param.id]) == if param.width <= 32 then 32 else 64
  }

  /** The procedure call standard: the parameters are in x0 to x7, in order. */
  ghost predicate InArgumentRegisters(params: seq<Param>, regOf: map<nat, nat>) {
    && (forall v :: v in regOf <==> HasNumber(params, v))
    && forall k: nat :: LastOfItsNumber(params, k) ==> InArgument(regOf, params[k], k)
  }

  lemma {:induction false} ParamsInOrder(params: seq<Param>)
    requires |params| <= 8
    ensures InArgumentRegisters(params, ParamRegs(params))
  {
    if params != [] {
      var n := |params| - 1;
      ParamsInOrder(params[..n]);
      OneMoreParam(params, ParamRegs(params[..n]), ParamReg(n, params[n].width));
    }
  }

  lemma NumbersOf(params: seq<Param>, v: nat)
    requires params != []
    ensures HasNumber(params, v) <==> HasNumber(params[..|params| - 1], v) || params[|params| - 1].id == v
  {
    var n := |params| - 1;
    var front := params[..n];
    if HasNumber(front, v) {
      var k :| 0 <= k < n && front[k].id == v;
      assert params[k].id == v;
    }
    if k :| 0 <= k < n && params[k].id == v {
      assert front[k].id == v;
    }
  }

  lemma OneMoreParam(params: seq<Param>, before: map<nat, nat>, reg: nat)
    requires params != [] && InArgumentRegisters(params[..|params| - 1], before)
    requires Parent(reg) == X0 + |params| - 1 && Width(reg) == if params[|params| - 1].width <= 32 then 32 else 64
    ensures InArgumentRegisters(params, before[params[|params| - 1].id := reg])
  {
    hide Parent, Width, HasNumber;
    var n := |params| - 1;
    var front, regOf := params[..n], before[params[n].id := reg];
    forall v
      ensures v in regOf <==> HasNumber(params, v)
    {
      NumbersOf(params, v);
    }
    forall k: nat | LastOfItsNumber(params, k)
      ensures InArgument(regOf, params[k], k)
    {
      if k < n {
        assert LastOfItsNumber(front, k) && params[n].id != params[k].id;
        assert InArgument(before, front[k], k);
      }
    }
  }

  method PreAllocateParameters(params: seq<Param>, info: RegisterInfo)
    returns (ok: bool, regOf: map<nat, nat>, ranges: map<nat, Range>)
    requires info.Valid()
    ensures ok <==> |params| <= 8
    ensures ok ==> InArgumentRegisters(params, regOf)
    ensures ok ==> regOf == ParamRegs(params) && ranges == ParamRanges(params)
  {
    regOf, ranges := map[], map[];
    for k := 0 to |params|
      invariant k <= |ARGUMENTS| && regOf == ParamRegs(params[..k]) && ranges == ParamRanges(params[..k])
    {
      assert params[..k + 1][..k] == params[..k];
      if k >= |ARGUMENTS| {
        return false, regOf, ranges;
      }
      ranges := ranges[params[k].id := Range(0, NEVER)];
      var reg := info.GetRegisterByID(ARGUMENTS[k]);
      regOf := regOf[params[k].id := if params[k].width <= 32 then reg.subRegs[0] else reg.id];
    }
    assert params[..|params|] == params;
    ParamsInOrder(params);
    ok := true;
  }

  /** The number an operand is stored as: that of its register, or the value
      of an immediate. */
  function RawValue(o: MOperand): nat {
    match o
    case VReg(v, _) => v
    case Parameter(v) => v
    case Memory(v, _, _) => v
    case Imm(n, _) => Unsigned(n)
    case Phys(r) => r
    case PhysMemory(r, _) => r
  }

  /** A return of a value. */
  predicate Claims(i: MInstr) { i.opcode == RET && i.operands != [] }

  function ClaimedReg(o: MOperand): nat { if SizeOf(o) == 64 then X0 else W0 }

  function Claim(regOf: map<nat, nat>, i: MInstr): map<nat, nat> {
    if Claims(i) then regOf[RawValue(i.operands[0]) := ClaimedReg(i.operands[0])] else regOf
  }

  /** The operand of every return of the block gets the return register. */
  function ClaimReturns(regOf: map<nat, nat>, block: seq<MInstr>): map<nat, nat>
    decreases |block|
  {
    if block == [] then regOf
    else ClaimReturns(Claim(regOf, block[|block| - 1]), block[..|block| - 1])
  }

  /** The procedure call standard: a value is returned in x0, or in its lower half
      unless it is 64 bits wide. */
  ghost predicate InReturnRegister(regOf: map<nat, nat>, o: MOperand) {
    && RawValue(o) in regOf && Parent(regOf[RawValue(o)]) == X0
    && Width(regOf[RawValue(o)]) == if SizeOf(o) == 64 then 64 else 32
  }

  /** No return of the block has this number in its operand. */
  ghost predicate Unreturned(block: seq<MInstr>, v: nat) {
    forall q :: 0 <= q < |block| && Claims(block[q]) ==> RawValue(block[q].operands[0]) != v
  }

  method PreAllocateReturnRegister(block: seq<MInstr>, before: map<nat, nat>, info: RegisterInfo)
    returns (regOf: map<nat, nat>)
    requires info.Valid()
    ensures forall p: nat :: Decides(block, p) ==> InReturnRegister(regOf, block[p].operands[0])
    ensures forall v :: Unreturned(block, v) ==> (v in regOf <==> v in before) && (v in regOf ==> regOf[v] == before[v])
    ensures regOf == ClaimReturns(before, block)
  {
    hide InReturnRegister, Unreturned;
    forall p: nat | Decides(block, p)
      ensures InReturnRegister(ClaimReturns(before, block), block[p].operands[0])
    {
      FirstReturnDecides(before, block, p);
    }
    forall v | Unreturned(block, v)
      ensures v in ClaimReturns(before, block) <==> v in before
      ensures v in before ==> ClaimReturns(before, block)[v] == before[v]
    {
      Unclaimed(before, block, v);
    }
    regOf := before;
    var n := |block|;
    assert block[..n] == block;
    while n > 0
      invariant n <= |block| && ClaimReturns(regOf, block[..n]) == ClaimReturns(before, block)
    {
      assert block[..n][..n - 1] == block[..n - 1];
      n := n - 1;
      var i := block[n];
      if i.opcode == RET && i.operands != [] {
        var reg := info.GetRegisterByID(RETURNS[0]);
        var o := i.operands[0];
        regOf := regOf[RawValue(o) := if SizeOf(o) == reg.width then reg.id else reg.subRegs[0]];
      }
    }
  }

  /** Registers of the calling convention, or parts of them. */
  ghost predicate Conventional(regOf: map<nat, nat>) {
    forall v :: v in regOf ==> (IsX(regOf[v]) || IsW(regOf[v])) && Parent(regOf[v]) in ARGUMENTS
  }

  lemma {:induction false} ParamsConventional(params: seq<Param>)
    requires |params| <= |ARGUMENTS|
    ensures Conventional(ParamRegs(params))
  {
    if params != [] {
      ParamsConventional(params[..|params| - 1]);
      var k := |params| - 1;
      assert ARGUMENTS[k] == Parent(ParamReg(k, params[k].width));
    }
  }

  lemma {:induction false} ReturnsConventional(regOf: map<nat, nat>, block: seq<MInstr>)
    requires Conventional(regOf)
    ensures Conventional(ClaimReturns(regOf, block))
    decreases |block|
  {
    if block != [] {
      assert ARGUMENTS[0] == X0 == Parent(W0);
      ReturnsConventional(Claim(regOf, block[|block| - 1]), block[..|block| - 1]);
    }
  }

  // ---------------------------------------------------------------------
  // Taking pre-allocated registers out of the pool
  // ---------------------------------------------------------------------

  function Without(pool: seq<nat>, taken: set<nat>): seq<nat> {
    if pool == [] then []
    else (if pool[0] in taken then [] else [pool[0]]) + Without(pool[1..], taken)
  }

  lemma {:induction false} WithoutNone(pool: seq<nat>, taken: set<nat>)
    requires forall r :: r in pool ==> r !in taken
    ensures Without(pool, taken) == pool
  {
    if pool != [] {
      WithoutNone(pool[1..], taken);
    }
  }

  lemma {:induction false} WithoutTwice(pool: seq<nat>, a: set<nat>, b: set<nat>)
    ensures Without(Without(pool, a), b) == Without(pool, a + b)
  {
    if pool != [] {
      WithoutTwice(pool[1..], a, b);
      var rest := Without(pool[1..], a);
      if pool[0] in a {
        assert [] + rest == rest;
      } else {
        assert ([pool[0]] + rest)[1..] == rest;
      }
    }
  }

  lemma {:induction false} WithoutMembers(pool: seq<nat>, taken: set<nat>)
    ensures forall r :: r in Without(pool, taken) <==> r in pool && r !in taken
    ensures multiset(Without(pool, taken)) <= multiset(pool)
  {
    if pool != [] {
      WithoutMembers(pool[1..], taken);
      assert pool == [pool[0]] + pool[1..];
    }
  }

  /** Finds reg and erases it. */
  method Erase(pool: seq<nat>, reg: nat) returns (r: seq<nat>)
    requires NoDuplicates(pool)
    ensures r == Without(pool, {reg}) && NoDuplicates(r)
  {
    var i := 0;
    while i < |pool| && pool[i] != reg
      invariant i <= |pool| && forall k :: 0 <= k < i ==> pool[k] != reg
    {
      i := i + 1;
    }
    if i < |pool| {
      r := pool[..i] + pool[i + 1..];
      assert pool == pool[..i] + ([reg] + pool[i + 1..]);
      WithoutOne(pool[..i], reg, pool[i + 1..]);
    } else {
      r := pool;
      WithoutNone(pool, {reg});
    }
  }

  lemma {:induction false} WithoutOne(a: seq<nat>, reg: nat, b: seq<nat>)
    requires reg !in a && reg !in b
    ensures Without(a + ([reg] + b), {reg}) == a + b
  {
    if a == [] {
      assert a + ([reg] + b) == [reg] + b && ([reg] + b)[1..] == b && a + b == b;
      WithoutNone(b, {reg});
    } else {
      assert (a + ([reg] + b))[1..] == a[1..] + ([reg] + b);
      WithoutOne(a[1..], reg, b);
      assert a + b == [a[0]] + (a[1..] + b);
    }
  }

  function Parents(regOf: map<nat, nat>, keys: set<nat>): set<nat>
    requires keys <= regOf.Keys
  {
    set v | v in keys :: Parent(regOf[v])
  }

  /** The register, its parts and the one it is a part of leave the pool. */
  method RemoveRegister(pool: seq<nat>, reg: nat, info: RegisterInfo) returns (r: seq<nat>)
    requires info.Valid() && NoDuplicates(pool) && (forall x :: x in pool ==> IsX(x)) && (IsX(reg) || IsW(reg))
    ensures r == Without(pool, {Parent(reg)}) && NoDuplicates(r) && forall x :: x in r ==> IsX(x)
  {
    hide Without, NoDuplicates;
    var toCheck := info.GetRegisterByID(reg).subRegs + [reg];
    var parent := info.GetParentReg(reg);
    if parent.Some? {
      toCheck := toCheck + [parent.value.id];
    }
    assert toCheck == if IsW(reg) then [reg, reg + 32] else [reg - 32, reg];
    r := pool;
    ghost var done: set<nat> := {};
    WithoutNone(pool, {});
    for i := 0 to |toCheck|
      invariant done == (set k | 0 <= k < i :: toCheck[k])
      invariant r == Without(pool, done) && NoDuplicates(r)
    {
      r := Erase(r, toCheck[i]);
      WithoutTwice(pool, done, {toCheck[i]});
      done := done + {toCheck[i]};
    }
    assert done == {toCheck[0], toCheck[1]};
    FilteredAreX(pool, done);
    OnlyParentMatters(pool, reg, done);
  }

  lemma FilteredAreX(pool: seq<nat>, taken: set<nat>)
    requires forall x :: x in pool ==> IsX(x)
    ensures forall x :: x in Without(pool, taken) ==> IsX(x)
  {
    WithoutMembers(pool, taken);
  }

  lemma {:induction false} OnlyParentMatters(pool: seq<nat>, reg: nat, done: set<nat>)
    requires forall x :: x in pool ==> IsX(x)
    requires IsX(reg) || IsW(reg)
    requires done == if IsW(reg) then {reg, reg + 32} else {reg - 32, reg}
    ensures Without(pool, done) == Without(pool, {Parent(reg)})
  {
    if pool != [] {
      assert IsX(pool[0]);
      OnlyParentMatters(pool[1..], reg, done);
    }
  }

  method RemovePreAllocated(pool: seq<nat>, regOf: map<nat, nat>, info: RegisterInfo) returns (r: seq<nat>)
    requires info.Valid() && NoDuplicates(pool) && (forall x :: x in pool ==> IsX(x)) && Conventional(regOf)
    ensures r == Without(pool, Parents(regOf, regOf.Keys))
  {
    r := pool;
    var keys := regOf.Keys;
    ghost var done: set<nat> := {};
    WithoutNone(pool, {});
    assert Parents(regOf, done) == {};
    while keys != {}
      invariant keys + done == regOf.Keys && keys !! done
      invariant r == Without(pool, Parents(regOf, done)) && NoDuplicates(r) && forall x :: x in r ==> IsX(x)
      decreases keys
    {
      var v :| v in keys;
      r := RemoveRegister(r, regOf[v], info);
      WithoutTwice(pool, Parents(regOf, done), {Parent(regOf[v])});
      assert Parents(regOf, done + {v}) == Parents(regOf, done) + {Parent(regOf[v])};
      keys, done := keys - {v}, done + {v};
    }
  }

  // ---------------------------------------------------------------------
  // The pass
  // ---------------------------------------------------------------------

  function PreAllocated(f: MFunction): map<nat, nat>
    requires f.lastBlock <= |f.code|
  {
    ClaimReturns(ParamRegs(f.params), f.code[f.lastBlock..])
  }

  function RangesIn(f: MFunction): map<nat, Range> {
    RangesOf(ParamRanges(f.params), Uses(f.code))
  }

  /** The width a register was declared or first mentioned with. */
  function WidthsIn(f: MFunction): map<nat, nat> {
    var params, sizes := ParamRegs(f.params), SizesOf(Uses(f.code));
    map v | v in RangesIn(f) :: if v in params then Width(params[v]) else if v in sizes then sizes[v] else 0
  }

  /** The registers left to hand out. */
  function FreePool(f: MFunction): seq<nat>
    requires f.lastBlock <= |f.code|
  {
    Without(CALLER_SAVED, Parents(PreAllocated(f), PreAllocated(f).Keys))
  }

  function Regs(f: MFunction): multiset<nat>
    requires f.lastBlock <= |f.code|
  {
    multiset(FreePool(f)) + multiset(CALLEE_SAVED)
  }

  /** The sorted list holds every range once. */
  ghost predicate Lists(order: seq<Entry>, ranges: map<nat, Range>) {
    && DistinctRegs(order)
    && (forall e :: e in order ==> e.v in ranges && ranges[e.v] == Range(e.def, e.kill))
    && (forall v :: v in ranges ==> Entry(v, ranges[v].def, ranges[v].kill) in order)
  }

  /** What the pass promises: the convention's registers stay where they are and
      are given to nothing else, everything else has a register of its width,
      and no two ranges that meet share one, unless the convention itself made
      them. */
  ghost predicate Allocation(f: MFunction, regOf: map<nat, nat>)
    requires f.lastBlock <= |f.code|
  {
    var ranges, pre := RangesIn(f), PreAllocated(f);
    && |f.params| <= 8
    && (forall v :: v in pre ==> v in regOf && regOf[v] == pre[v])
    && (forall v :: v in ranges ==> v in regOf && (IsX(regOf[v]) || IsW(regOf[v])))
    && (forall v :: v in ranges && v !in pre ==> Width(regOf[v]) == WidthsIn(f)[v])
    && (forall u, v :: u in pre && v in ranges && v !in pre ==> Parent(regOf[u]) != Parent(regOf[v]))
    && MeetingDiffer(f, regOf)
  }

  /** Ranges that meet share no bits, except among registers fixed by the
      convention. */
  ghost predicate MeetingDiffer(f: MFunction, regOf: map<nat, nat>)
    requires f.lastBlock <= |f.code| && forall v :: v in RangesIn(f) ==> v in regOf
  {
    var ranges, pre := RangesIn(f), PreAllocated(f);
    forall u, v ::
      u in ranges && v in ranges && u != v && (u !in pre || v !in pre) && Meet(ranges[u], ranges[v]) ==>
        Parent(regOf[u]) != Parent(regOf[v])
  }

  /** The recorded registers are exactly the callee-saved ones that the pass
      gave to a virtual register. */
  ghost predicate Clobbers(f: MFunction, regOf: map<nat, nat>, used: seq<nat>)
    requires f.lastBlock <= |f.code|
  {
    forall r :: r in used <==>
      r in CALLEE_SAVED && exists v :: v in RangesIn(f) && v !in PreAllocated(f) && v in regOf && Parent(regOf[v]) == r
  }

  lemma FreeIsUsable(f: MFunction)
    requires f.lastBlock <= |f.code| && |f.params| <= 8
    ensures Conventional(PreAllocated(f)) && Usable(Regs(f))
    ensures forall v, r :: v in PreAllocated(f) && r in Regs(f) ==> Parent(PreAllocated(f)[v]) != r
  {
    var pre := PreAllocated(f);
    ParamsConventional(f.params);
    ReturnsConventional(ParamRegs(f.params), f.code[f.lastBlock..]);
    var taken := Parents(pre, pre.Keys);
    WithoutMembers(CALLER_SAVED, taken);
    PoolsAreDistinct();
    var all := CALLER_SAVED + CALLEE_SAVED;
    assert Regs(f) <= multiset(all);
    forall r | r in Regs(f)
      ensures IsX(r) && Regs(f)[r] == 1
    {
      assert r in all;
      OnlyOnce(all, r);
    }
    forall v, r | v in pre && r in Regs(f)
      ensures Parent(pre[v]) != r
    {
      assert Parent(pre[v]) in taken && Parent(pre[v]) in ARGUMENTS;
    }
  }

  lemma {:induction false} OnlyOnce(s: seq<nat>, r: nat)
    requires NoDuplicates(s) && r in s
    ensures multiset(s)[r] == 1
  {
    var n := |s| - 1;
    var front := s[..n];
    assert s == front + [s[n]];
    if s[n] == r {
      assert r !in front;
    } else {
      OnlyOnce(front, r);
    }
  }

  lemma {:induction false} RangedIsSized(params: map<nat, Range>, uses: seq<Use>, v: nat)
    requires v in RangesOf(params, uses) && v !in params
    ensures v in SizesOf(uses)
  {
    if uses != [] && uses[|uses| - 1].v != v {
      RangedIsSized(params, uses[..|uses| - 1], v);
    }
  }

  /** Rewrites every operand in place. */
  method RewriteOperands(code: array<MInstr>, regOf: map<nat, nat>)
    modifies code
    ensures code[..] == Rewritten(old(code[..]), regOf)
  {
    for p := 0 to code.Length
      invariant forall q :: 0 <= q < p ==> code[q] == RewriteInstr(old(code[q]), regOf)
      invariant forall q :: p <= q < code.Length ==> code[q] == old(code[q])
    {
      var operands := code[p].operands;
      for k := 0 to |operands|
        invariant |operands| == |old(code[p]).operands|
        invariant forall j :: 0 <= j < k ==> operands[j] == RewriteOperand(old(code[p]).operands[j], regOf)
        invariant forall j :: k <= j < |operands| ==> operands[j] == old(code[p]).operands[j]
      {
        operands := operands[k := RewriteOperand(operands[k], regOf)];
      }
      code[p] := code[p].(operands := operands);
    }
  }

  /** The main result about the pass, for any order of equal sort keys. */
  method RunRA(f: MFunction, order: seq<Entry>, info: RegisterInfo)
    returns (ok: bool, regOf: map<nat, nat>, code: array<MInstr>, usedCalleeSaved: seq<nat>)
    requires info.Valid() && f.lastBlock <= |f.code| && Sorted(order) && Lists(order, RangesIn(f))
    ensures fresh(code)
    ensures ok <==> |f.params| <= 8
                    && AllPass(order, SizesOf(Uses(f.code)), PreAllocated(f).Keys, Regs(f), |order|)
    ensures ok ==> Allocation(f, regOf) && code[..] == Rewritten(f.code, regOf)
    ensures usedCalleeSaved <= CALLEE_SAVED
    ensures ok ==> Clobbers(f, regOf, usedCalleeSaved)
  {
    hide Allocation, AllPass, AllSuit, Apart, Records, Clobbers, Rewritten, Lists, Sorted, Conserved, Usable,
      Conventional;
    hide RangesOf, SizesOf, Uses, ClaimReturns, ParamRegs, ParamRanges, Without, Parents, Busy;
    code := new MInstr[|f.code|](i requires 0 <= i < |f.code| => f.code[i]);
    assert code[..] == f.code;
    usedCalleeSaved := [];
    var params;
    ok, regOf, params := PreAllocateParameters(f.params, info);
    if !ok {
      return;
    }
    regOf := PreAllocateReturnRegister(f.code[f.lastBlock..], regOf, info);
    FreeIsUsable(f);
    PoolsAreDistinct();
    var pool := RemovePreAllocated(CALLER_SAVED, regOf, info);
    var ranges, sizes := ComputeLiveRanges(f.code, params);
    var scanner := new LinearScanner(pool, CALLEE_SAVED, regOf);
    EntriesAreSized(f, order);
    AllFree(pool, CALLEE_SAVED, regOf);
    ok := scanner.Scan(order, sizes, Regs(f), info);
    usedCalleeSaved := scanner.usedCalleeSaved;
    assert usedCalleeSaved + scanner.backup == [] + CALLEE_SAVED == CALLEE_SAVED;
    if ok {
      ScanAllocates(f, order, scanner.regOf);
      ScanRecords(f, order, scanner.regOf, usedCalleeSaved);
      regOf := scanner.regOf;
      RewriteOperands(code, regOf);
    }
  }

  lemma EntriesAreSized(f: MFunction, order: seq<Entry>)
    requires f.lastBlock <= |f.code| && Lists(order, RangesIn(f))
    ensures DistinctRegs(order)
    ensures forall j :: 0 <= j < |order| && order[j].v !in PreAllocated(f) ==> order[j].v in SizesOf(Uses(f.code))
  {
    forall j | 0 <= j < |order| && order[j].v !in PreAllocated(f)
      ensures order[j].v in SizesOf(Uses(f.code))
    {
      assert order[j] in order;
      ParamRangesFromStart(f.params);
      ClaimsKeepKeys(ParamRegs(f.params), f.code[f.lastBlock..]);
      RangedIsSized(ParamRanges(f.params), Uses(f.code), order[j].v);
    }
  }

  lemma {:induction false} ClaimsKeepKeys(regOf: map<nat, nat>, block: seq<MInstr>)
    ensures regOf.Keys <= ClaimReturns(regOf, block).Keys
    decreases |block|
  {
    if block != [] {
      ClaimsKeepKeys(Claim(regOf, block[|block| - 1]), block[..|block| - 1]);
    }
  }

  lemma ScanAllocates(f: MFunction, order: seq<Entry>, regOf: map<nat, nat>)
    requires f.lastBlock <= |f.code| && |f.params| <= 8 && Sorted(order) && Lists(order, RangesIn(f))
    requires Apart(order, PreAllocated(f).Keys, regOf, |order|)
    requires AllSuit(order, SizesOf(Uses(f.code)), PreAllocated(f).Keys, Regs(f), regOf, |order|)
    requires forall v :: v in PreAllocated(f) ==> v in regOf && regOf[v] == PreAllocated(f)[v]
    ensures Allocation(f, regOf)
  {
    var ranges, pre := RangesIn(f), PreAllocated(f);
    hide RangesIn, PreAllocated, WidthsIn, Lists, AllSuit, Apart, Sorted, Parent, IsX, IsW, Width, Regs,
      SizesOf, Uses, MeetingDiffer;
    forall v | v in ranges
      ensures v in regOf && (IsX(regOf[v]) || IsW(regOf[v])) && (v !in pre ==> Width(regOf[v]) == WidthsIn(f)[v])
    {
      EachSuits(f, order, regOf, v);
    }
    forall u, v | u in pre && v in ranges && v !in pre
      ensures Parent(regOf[u]) != Parent(regOf[v])
    {
      PreApart(f, order, regOf, v, u);
    }
    AllMeetingApart(f, order, regOf);
  }

  lemma AllMeetingApart(f: MFunction, order: seq<Entry>, regOf: map<nat, nat>)
    requires f.lastBlock <= |f.code| && |f.params| <= 8 && Sorted(order) && Lists(order, RangesIn(f))
    requires Apart(order, PreAllocated(f).Keys, regOf, |order|)
    requires AllSuit(order, SizesOf(Uses(f.code)), PreAllocated(f).Keys, Regs(f), regOf, |order|)
    requires forall v :: v in PreAllocated(f) ==> v in regOf && regOf[v] == PreAllocated(f)[v]
    requires forall v :: v in RangesIn(f) ==> v in regOf
    ensures MeetingDiffer(f, regOf)
  {
    hide RangesIn, PreAllocated, Lists, AllSuit, Apart, Sorted, Parent, Meet, Regs, SizesOf, Uses;
    var ranges, pre := RangesIn(f), PreAllocated(f);
    forall u, v | u in ranges && v in ranges && u != v && (u !in pre || v !in pre) && Meet(ranges[u], ranges[v])
      ensures Parent(regOf[u]) != Parent(regOf[v])
    {
      MeetingApart(f, order, regOf, u, v);
    }
  }

  lemma ScanRecords(f: MFunction, order: seq<Entry>, regOf: map<nat, nat>, used: seq<nat>)
    requires f.lastBlock <= |f.code| && Lists(order, RangesIn(f))
    requires Records(order, PreAllocated(f).Keys, regOf, CALLEE_SAVED, used, |order|)
    ensures Clobbers(f, regOf, used)
  {
    var ranges, pre := RangesIn(f), PreAllocated(f);
    hide RangesIn, PreAllocated, Parent;
    forall r | r in used
      ensures exists v :: v in ranges && v !in pre && v in regOf && Parent(regOf[v]) == r
    {
      var i :| 0 <= i < |order| && Took(order, pre.Keys, regOf, r, i);
      assert order[i] in order;
    }
    forall v | v in ranges && v !in pre && v in regOf && Parent(regOf[v]) in CALLEE_SAVED
      ensures Parent(regOf[v]) in used
    {
      var i := IndexOf(order, Entry(v, ranges[v].def, ranges[v].kill));
      assert Took(order, pre.Keys, regOf, Parent(regOf[v]), i);
    }
  }

  lemma EachSuits(f: MFunction, order: seq<Entry>, regOf: map<nat, nat>, v: nat)
    requires f.lastBlock <= |f.code| && |f.params| <= 8 && Lists(order, RangesIn(f)) && v in RangesIn(f)
    requires AllSuit(order, SizesOf(Uses(f.code)), PreAllocated(f).Keys, Regs(f), regOf, |order|)
    requires forall v :: v in PreAllocated(f) ==> v in regOf && regOf[v] == PreAllocated(f)[v]
    ensures v in regOf && (IsX(regOf[v]) || IsW(regOf[v]))
    ensures v !in PreAllocated(f) ==>
            v in WidthsIn(f) && Width(regOf[v]) == WidthsIn(f)[v] && Parent(regOf[v]) in Regs(f)
  {
    var ranges, pre := RangesIn(f), PreAllocated(f);
    var j := IndexOf(order, Entry(v, ranges[v].def, ranges[v].kill));
    assert Suits(order, SizesOf(Uses(f.code)), pre.Keys, Regs(f), regOf, j);
    FreeIsUsable(f);
    ClaimsKeepKeys(ParamRegs(f.params), f.code[f.lastBlock..]);
  }

  lemma PreApart(f: MFunction, order: seq<Entry>, regOf: map<nat, nat>, v: nat, u: nat)
    requires f.lastBlock <= |f.code| && |f.params| <= 8 && Lists(order, RangesIn(f)) && v in RangesIn(f)
    requires AllSuit(order, SizesOf(Uses(f.code)), PreAllocated(f).Keys, Regs(f), regOf, |order|)
    requires forall v :: v in PreAllocated(f) ==> v in regOf && regOf[v] == PreAllocated(f)[v]
    requires v !in PreAllocated(f) && u in PreAllocated(f)
    ensures v in regOf && Parent(regOf[u]) != Parent(regOf[v])
  {
    EachSuits(f, order, regOf, v);
    FreeIsUsable(f);
  }

  lemma MeetingApart(f: MFunction, order: seq<Entry>, regOf: map<nat, nat>, u: nat, v: nat)
    requires f.lastBlock <= |f.code| && |f.params| <= 8 && Sorted(order) && Lists(order, RangesIn(f))
    requires Apart(order, PreAllocated(f).Keys, regOf, |order|)
    requires AllSuit(order, SizesOf(Uses(f.code)), PreAllocated(f).Keys, Regs(f), regOf, |order|)
    requires forall v :: v in PreAllocated(f) ==> v in regOf && regOf[v] == PreAllocated(f)[v]
    requires u in RangesIn(f) && v in RangesIn(f) && u != v && Meet(RangesIn(f)[u], RangesIn(f)[v])
    requires u !in PreAllocated(f) || v !in PreAllocated(f)
    ensures u in regOf && v in regOf && Parent(regOf[u]) != Parent(regOf[v])
  {
    hide RangesIn, PreAllocated, Lists, AllSuit, Apart, Sorted, Parent, Meet, Regs, SizesOf, Uses;
    if u in PreAllocated(f) {
      PreApart(f, order, regOf, v, u);
    } else if v in PreAllocated(f) {
      PreApart(f, order, regOf, u, v);
    } else {
      PairApart(f, order, regOf, u, v);
    }
  }

  lemma PairApart(f: MFunction, order: seq<Entry>, regOf: map<nat, nat>, u: nat, v: nat)
    requires f.lastBlock <= |f.code| && Sorted(order) && Lists(order, RangesIn(f))
    requires Apart(order, PreAllocated(f).Keys, regOf, |order|)
    requires u in RangesIn(f) && v in RangesIn(f) && u != v && Meet(RangesIn(f)[u], RangesIn(f)[v])
    requires u !in PreAllocated(f) && v !in PreAllocated(f)
    ensures u in regOf && v in regOf && Parent(regOf[u]) != Parent(regOf[v])
  {
    hide RangesIn, PreAllocated, Parent;
    var ranges := RangesIn(f);
    var i := IndexOf(order, Entry(u, ranges[u].def, ranges[u].kill));
    var k := IndexOf(order, Entry(v, ranges[v].def, ranges[v].kill));
    if i < k {
      assert order[i].kill >= order[k].def;
    } else {
      assert order[k].kill >= order[i].def;
    }
  }

  lemma AllFree(pool: seq<nat>, backup: seq<nat>, regOf: map<nat, nat>)
    ensures Conserved(pool, backup, [], regOf, multiset(pool) + multiset(backup))
  {
  }

  lemma IndexOf(order: seq<Entry>, e: Entry) returns (i: nat)
    requires e in order
    ensures i < |order| && order[i] == e
  {
    i :| i < |order| && order[i] == e;
  }

  // ---------------------------------------------------------------------
  // Meaning
  // ---------------------------------------------------------------------

  /** What the convention must not upset: registers it fixes for virtual
      registers that are live together differ, they have the widths of their
      virtual registers, and no return takes a parameter's register away. */
  ghost predicate ConventionFits(f: MFunction)
    requires f.lastBlock <= |f.code|
  {
    var ranges, pre := RangesIn(f), PreAllocated(f);
    && (forall u, v :: u in ranges && v in ranges && u in pre && v in pre && u != v && Meet(ranges[u], ranges[v]) ==>
          Parent(pre[u]) != Parent(pre[v]))
    && (forall v :: v in ranges && v in pre ==> Width(pre[v]) == WidthsIn(f)[v])
    && NoParameterClaimed(f)
  }

  lemma AllocationSeparates(f: MFunction, regOf: map<nat, nat>)
    requires f.lastBlock <= |f.code| <= NEVER && Allocation(f, regOf) && ConventionFits(f)
    ensures Separates(f.code, RangesIn(f), WidthsIn(f), regOf)
  {
    hide WidthsIn, PreAllocated;
    ParamRangesFromStart(f.params);
    forall p: nat, v: nat | Mentions(f.code, p, v)
      ensures v in RangesIn(f) && RangesIn(f)[v].def <= p <= RangesIn(f)[v].kill
    {
      LiveWhereMentioned(ParamRanges(f.params), f.code, p, v);
    }
    assert WidthsIn(f).Keys == RangesIn(f).Keys by { WidthKeys(f); }
  }

  lemma WidthKeys(f: MFunction)
    ensures WidthsIn(f).Keys == RangesIn(f).Keys
  {
  }

  /** A call begins with the arguments in x0 to x7: parameter k holds the low 32
      bits of xk, or all 64. */
  ghost predicate Entry0<M>(f: MFunction, c: VConfig<M>, p: PConfig<M>) {
    && c.pc == p.pc == 0 && c.mem == p.mem
    && (forall v :: v in c.vregs <==> HasNumber(f.params, v))
    && forall k: nat :: LastOfItsNumber(f.params, k) ==>
         c.vregs[f.params[k].id] == Argument(p.regs, k, f.params[k].width)
  }

  function Argument(regs: map<nat, int>, k: nat, width: nat): int {
    LowUnsigned(Get(regs, X0 + k), if width <= 32 then 32 else 64)
  }

  lemma LastOf(params: seq<Param>, v: nat) returns (k: nat)
    requires HasNumber(params, v)
    ensures LastOfItsNumber(params, k) && params[k].id == v
  {
    k := |params| - 1;
    while params[k].id != v
      invariant k < |params| && forall j :: k < j < |params| ==> params[j].id != v
      decreases k
    {
      k := k - 1;
    }
  }

  /** The arguments are where the allocator expects the parameters. */
  lemma EntryInRegisters<M>(f: MFunction, c: VConfig<M>, p: PConfig<M>)
    requires |f.params| <= 8 && Entry0(f, c, p)
    ensures c.vregs.Keys == ParamRegs(f.params).Keys
    ensures forall v :: v in c.vregs ==> RegValue(p.regs, ParamRegs(f.params)[v]) == c.vregs[v]
  {
    hide ParamRegs, LowUnsigned;
    ParamsInOrder(f.params);
    forall v | v in c.vregs
      ensures v in ParamRegs(f.params) && RegValue(p.regs, ParamRegs(f.params)[v]) == c.vregs[v]
    {
      var k := LastOf(f.params, v);
    }
  }

  lemma {:induction false} ParamsAreRanged(params: seq<Param>, uses: seq<Use>, v: nat)
    requires v in ParamRegs(params)
    ensures v in RangesOf(ParamRanges(params), uses) && RangesOf(ParamRanges(params), uses)[v].def == 0
  {
    ParamRangesFromStart(params);
    ParamsStay(ParamRanges(params), uses, v);
  }

  /** The first of the returns of the block whose operand has this number. */
  ghost predicate Decides(block: seq<MInstr>, p: nat) {
    && p < |block| && Claims(block[p])
    && forall q :: 0 <= q < p && Claims(block[q]) ==> RawValue(block[q].operands[0]) != RawValue(block[p].operands[0])
  }

  lemma {:induction false} Unclaimed(regOf: map<nat, nat>, block: seq<MInstr>, v: nat)
    requires Unreturned(block, v)
    ensures v in ClaimReturns(regOf, block) <==> v in regOf
    ensures v in regOf ==> ClaimReturns(regOf, block)[v] == regOf[v]
    decreases |block|
  {
    if block != [] {
      Unclaimed(Claim(regOf, block[|block| - 1]), block[..|block| - 1], v);
    }
  }

  /** The loop over the block runs backwards, so its first return decides. */
  lemma {:induction false} FirstReturnDecides(regOf: map<nat, nat>, block: seq<MInstr>, p: nat)
    requires Decides(block, p)
    ensures var o := block[p].operands[0];
            InReturnRegister(ClaimReturns(regOf, block), o) && ClaimReturns(regOf, block)[RawValue(o)] == ClaimedReg(o)
    decreases |block|
  {
    var n := |block| - 1;
    if p < n {
      FirstReturnDecides(Claim(regOf, block[n]), block[..n], p);
    } else {
      Unclaimed(Claim(regOf, block[n]), block[..n], RawValue(block[p].operands[0]));
    }
  }

  lemma {:induction false} SomeReturnDecides(block: seq<MInstr>, q: nat) returns (p: nat)
    requires q < |block| && Claims(block[q])
    ensures Decides(block, p) && RawValue(block[p].operands[0]) == RawValue(block[q].operands[0])
    decreases q
  {
    p := q;
    if q' :| 0 <= q' < q && Claims(block[q']) && RawValue(block[q'].operands[0]) == RawValue(block[q].operands[0]) {
      p := SomeReturnDecides(block, q');
    }
  }

  /** No return of the last block has the number of a parameter in its operand,
      be it as a register or as an immediate, unless that parameter is in the
      return register anyway. */
  ghost predicate NoParameterClaimed(f: MFunction)
    requires f.lastBlock <= |f.code|
  {
    var block := f.code[f.lastBlock..];
    forall p: nat :: Decides(block, p) && RawValue(block[p].operands[0]) in ParamRegs(f.params) ==>
      ParamRegs(f.params)[RawValue(block[p].operands[0])] == ClaimedReg(block[p].operands[0])
  }

  /** Every parameter keeps its argument register exactly if no return of the
      last block claims its number for another one. */
  lemma ParametersStayExactly(f: MFunction)
    requires f.lastBlock <= |f.code|
    ensures (forall v :: v in ParamRegs(f.params) ==>
            v in PreAllocated(f) && PreAllocated(f)[v] == ParamRegs(f.params)[v])
            <==> NoParameterClaimed(f)
  {
    var block, params := f.code[f.lastBlock..], ParamRegs(f.params);
    hide ParamRegs, ClaimReturns;
    forall p: nat | Decides(block, p)
      ensures var o := block[p].operands[0];
              RawValue(o) in PreAllocated(f) && PreAllocated(f)[RawValue(o)] == ClaimedReg(o)
    {
      FirstReturnDecides(params, block, p);
    }
    forall v | v in params && NoParameterClaimed(f)
      ensures v in PreAllocated(f) && PreAllocated(f)[v] == params[v]
    {
      if q :| 0 <= q < |block| && Claims(block[q]) && RawValue(block[q].operands[0]) == v {
        var p := SomeReturnDecides(block, q);
      } else {
        Unclaimed(params, block, v);
      }
    }
  }

  lemma ReturnsAreClaimed(f: MFunction, p: nat)
    requires f.lastBlock <= p < |f.code| && f.code[p].opcode == RET && f.code[p].operands != []
    ensures var v := RawValue(f.code[p].operands[0]);
            v in PreAllocated(f) && Parent(PreAllocated(f)[v]) == X0
  {
    var block := f.code[f.lastBlock..];
    assert block[p - f.lastBlock] == f.code[p];
    ClaimsAll(ParamRegs(f.params), block, p - f.lastBlock);
  }

  lemma {:induction false} ClaimsAll(regOf: map<nat, nat>, block: seq<MInstr>, i: nat)
    requires i < |block| && block[i].opcode == RET && block[i].operands != []
    ensures var v := RawValue(block[i].operands[0]);
            v in ClaimReturns(regOf, block) && Parent(ClaimReturns(regOf, block)[v]) == X0
    decreases |block|
  {
    var n := |block| - 1;
    if i < n {
      ClaimsAll(Claim(regOf, block[n]), block[..n], i);
    } else {
      ClaimStays(Claim(regOf, block[n]), block[..n], RawValue(block[i].operands[0]));
    }
  }

  lemma {:induction false} ClaimStays(regOf: map<nat, nat>, block: seq<MInstr>, v: nat)
    requires v in regOf && Parent(regOf[v]) == X0
    ensures v in ClaimReturns(regOf, block) && Parent(ClaimReturns(regOf, block)[v]) == X0
    decreases |block|
  {
    if block != [] {
      ClaimStays(Claim(regOf, block[|block| - 1]), block[..|block| - 1], v);
    }
  }

  lemma EntryAgrees<M>(f: MFunction, regOf: map<nat, nat>, c: VConfig<M>, p: PConfig<M>)
    requires f.lastBlock <= |f.code| && Allocation(f, regOf) && NoParameterClaimed(f) && Entry0(f, c, p)
    ensures Agree(RangesIn(f), regOf, c, p)
  {
    EntryInRegisters(f, c, p);
    ParametersStayExactly(f);
    hide NoParameterClaimed, RangesOf, ParamRegs, PreAllocated;
    forall v | v in c.vregs
      ensures v in RangesIn(f) && RangesIn(f)[v].def == 0 && v in regOf && regOf[v] == ParamRegs(f.params)[v]
    {
      ParamsAreRanged(f.params, Uses(f.code), v);
    }
  }

  /** The main result about meaning: for every semantics and every run of the
      code on virtual registers, the allocated code does the same with memory,
      and at every return the register of its operand holds the value; at a
      return of the last block that is the return register. */
  lemma AllocatedCodeRuns<M>(f: MFunction, regOf: map<nat, nat>, sem: Semantics<M>, c0: VConfig<M>, p0: PConfig<M>,
                             n: nat)
    requires f.lastBlock <= |f.code| <= NEVER && Allocation(f, regOf) && ConventionFits(f) && Entry0(f, c0, p0)
    requires VRun(f.code, WidthsIn(f), sem, c0, n).Some?
    ensures var c, p' := VRun(f.code, WidthsIn(f), sem, c0, n).value, PRun(Rewritten(f.code, regOf), sem, p0, n);
            && p'.Some? && p'.value.pc == c.pc && p'.value.mem == c.mem
            && (c.pc < |f.code| && Claims(f.code[c.pc]) ==>
                  var o := f.code[c.pc].operands[0];
                  o.VReg? && o.v in c.vregs ==>
                    && RegValue(p'.value.regs, RegFor(regOf, o.v)) == c.vregs[o.v]
                    && (f.lastBlock <= c.pc ==> Parent(RegFor(regOf, o.v)) == X0))
  {
    hide WidthsIn, VRun, PRun, Rewritten, Separates, RangesOf, ClaimReturns, NoParameterClaimed;
    var ranges := RangesIn(f);
    AllocationSeparates(f, regOf);
    EntryAgrees(f, regOf, c0, p0);
    RunsAgree(f.code, ranges, WidthsIn(f), regOf, sem, c0, p0, n);
    var c := VRun(f.code, WidthsIn(f), sem, c0, n).value;
    if c.pc < |f.code| && Claims(f.code[c.pc]) {
      var o := f.code[c.pc].operands[0];
      if o.VReg? && o.v in c.vregs {
        if f.lastBlock <= c.pc {
          ReturnsAreClaimed(f, c.pc);
        }
        assert UsedReg(o) == Some(o.v);
        assert Mentions(f.code, c.pc, o.v);
        ParamRangesFromStart(f.params);
        LiveWhereMentioned(ParamRanges(f.params), f.code, c.pc, o.v);
      }
    }
  }

  /** A register that all its mentions give the same width has that width. */
  lemma WidthOf(f: MFunction, at: nat, v: nat, width: nat)
    requires |f.code| <= NEVER && Mentions(f.code, at, v) && v !in ParamRegs(f.params)
    requires forall p, k ::
               0 <= p < |f.code| && 0 <= k < |f.code[p].operands| && UsedReg(f.code[p].operands[k]) == Some(v) ==>
                 SizeOf(f.code[p].operands[k]) == width
    ensures v in RangesIn(f) && v in WidthsIn(f) && WidthsIn(f)[v] == width
  {
    hide RangesOf, SizesOf, Uses, ParamRanges, ParamRegs;
    ParamRangesFromStart(f.params);
    LiveWhereMentioned(ParamRanges(f.params), f.code, at, v);
    RangedIsSized(ParamRanges(f.params), Uses(f.code), v);
    var p, k := SizeIsMentioned(f.code, v);
  }

  // ---------------------------------------------------------------------
  // Returns outside the last block
  // ---------------------------------------------------------------------

  /** The convention has given x0, or its lower half, to some register. */
  ghost predicate ReturnIsTaken(f: MFunction)
    requires f.lastBlock <= |f.code|
  {
    exists u :: u in PreAllocated(f) && Parent(PreAllocated(f)[u]) == X0
  }

  /** Once it has, exactly the registers it was given to are there: the first
      parameter, and what the last block returns.  A value that only other
      blocks return is never in the return register. */
  lemma OnlyClaimedReturn(f: MFunction, regOf: map<nat, nat>, v: nat)
    requires f.lastBlock <= |f.code| && Allocation(f, regOf) && ReturnIsTaken(f) && v in RangesIn(f)
    ensures Parent(regOf[v]) == X0 <==> v in PreAllocated(f) && Parent(PreAllocated(f)[v]) == X0
  {
    hide PreAllocated, RangesIn, WidthsIn, Parent;
    var u :| u in PreAllocated(f) && Parent(PreAllocated(f)[u]) == X0;
    if v !in PreAllocated(f) {
      assert Parent(regOf[u]) != Parent(regOf[v]);
    }
  }

  /** No instruction defines a register that the convention put in x0. */
  ghost predicate DefinesNoReturn(f: MFunction)
    requires f.lastBlock <= |f.code|
  {
    forall q :: 0 <= q < |f.code| && f.code[q].defines ==>
      && f.code[q].operands != [] && f.code[q].operands[0].VReg?
      && !(f.code[q].operands[0].v in PreAllocated(f) && Parent(PreAllocated(f)[f.code[q].operands[0].v]) == X0)
  }

  lemma StepLeavesReturn<M>(f: MFunction, regOf: map<nat, nat>, sem: Semantics<M>, p: PConfig<M>)
    requires f.lastBlock <= |f.code| <= NEVER && Allocation(f, regOf) && ReturnIsTaken(f) && DefinesNoReturn(f)
    requires PStep(Rewritten(f.code, regOf), sem, p).Some?
    ensures Get(PStep(Rewritten(f.code, regOf), sem, p).value.regs, X0) == Get(p.regs, X0)
  {
    hide PreAllocated, WidthsIn, RangesOf, ReturnIsTaken, Parent, PReadAll, Uses;
    var i := f.code[p.pc];
    if i.defines {
      var o := i.operands[0];
      assert UsedReg(o) == Some(o.v);
      assert Mentions(f.code, p.pc, o.v);
      ParamRangesFromStart(f.params);
      LiveWhereMentioned(ParamRanges(f.params), f.code, p.pc, o.v);
      OnlyClaimedReturn(f, regOf, o.v);
    }
  }

  /** Then x0 holds at every moment of the run what it held at the call, so at
      a return outside the last block too. */
  lemma {:induction false} ReturnRegisterStays<M>(f: MFunction, regOf: map<nat, nat>, sem: Semantics<M>,
                                                  p: PConfig<M>, n: nat)
    requires f.lastBlock <= |f.code| <= NEVER && Allocation(f, regOf) && ReturnIsTaken(f) && DefinesNoReturn(f)
    requires PRun(Rewritten(f.code, regOf), sem, p, n).Some?
    ensures Get(PRun(Rewritten(f.code, regOf), sem, p, n).value.regs, X0) == Get(p.regs, X0)
    decreases n
  {
    hide Allocation, ReturnIsTaken, DefinesNoReturn, PStep, Rewritten;
    if n > 0 {
      StepLeavesReturn(f, regOf, sem, p);
      ReturnRegisterStays(f, regOf, sem, PStep(Rewritten(f.code, regOf), sem, p).value, n - 1);
    }
  }
}
