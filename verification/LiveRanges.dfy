/** Machine code as the register allocator sees it, and the live ranges it
    computes: from the first to the last instruction that mentions a virtual
    register. */
module LiveRanges {
  import opened Words

  /** Virtual and physical operands; a memory operand is addressed through a
      register. */
  datatype MOperand =
    | VReg(v: nat, size: nat)
    | Parameter(v: nat)
    | Memory(v: nat, offset: int, size: nat)
    | Imm(n: int, size: nat)
    | Phys(r: nat)
    | PhysMemory(r: nat, offset: int)

  /** If the instruction defines a register, that is its first operand; all
      other operands are read. */
  datatype MInstr = MInstr(opcode: nat, defines: bool, operands: seq<MOperand>)

  const RET: nat := 0

  /** The kill of a register mentioned only once. */
  const NEVER: nat := TWO_TO_THE_32 - 1

  function UsedReg(o: MOperand): Option<nat> {
    match o
    case VReg(v, _) => Some(v)
    case Parameter(v) => Some(v)
    case Memory(v, _, _) => Some(v)
    case _ => None
  }

  function SizeOf(o: MOperand): nat {
    match o
    case VReg(_, size) => size
    case Memory(_, _, size) => size
    case Imm(_, size) => size
    case _ => 0
  }

  datatype Use = Use(v: nat, at: nat, size: nat)

  function OperandUses(operands: seq<MOperand>, at: nat): seq<Use> {
    if operands == [] then []
    else
      var o := operands[|operands| - 1];
      OperandUses(operands[..|operands| - 1],
        at) + (if UsedReg(o).Some? then [Use(UsedReg(o).value, at, SizeOf(o))] else [])
  }

  /** All mentions of registers, in program order. */
  function Uses(code: seq<MInstr>): seq<Use> {
    if code == [] then []
    else
      var n := |code| - 1;
      Uses(code[..n]) + OperandUses(code[n].operands, n)
  }

  datatype Range = Range(def: nat, kill: nat)

  /** The two ranges share an instruction. */
  predicate Meet(a: Range, b: Range) {
    a.def <= b.kill && b.def <= a.kill
  }

  function Extend(ranges: map<nat, Range>, u: Use): map<nat, Range> {
    if u.v in ranges then ranges[u.v := Range(ranges[u.v].def, u.at)] else ranges[u.v := Range(u.at, NEVER)]
  }

  /** The ranges after the given uses; params are live from the start. */
  function RangesOf(params: map<nat, Range>, uses: seq<Use>): map<nat, Range> {
    if uses == [] then params
    else Extend(RangesOf(params, uses[..|uses| - 1]), uses[|uses| - 1])
  }

  /** The size of a register is that of its first mention. */
  function SizesOf(uses: seq<Use>): map<nat, nat> {
    if uses == [] then map[]
    else
      var sizes, u := SizesOf(uses[..|uses| - 1]), uses[|uses| - 1];
      if u.v in sizes then sizes else sizes[u.v := u.size]
  }

  // ---------------------------------------------------------------------
  // What the ranges mean
  // ---------------------------------------------------------------------

  ghost predicate InOrder(uses: seq<Use>) {
    forall i, j :: 0 <= i < j < |uses| ==> uses[i].at <= uses[j].at
  }

  ghost predicate FromStart(params: map<nat, Range>) {
    forall v :: v in params ==> params[v].def == 0 && params[v].kill == NEVER
  }

  /** A range covers every mention of its register. */
  lemma {:induction false} RangesCover(params: map<nat, Range>, uses: seq<Use>, i: nat)
    requires InOrder(uses) && FromStart(params) && i < |uses| && uses[|uses| - 1].at <= NEVER
    ensures var ranges := RangesOf(params, uses);
            uses[i].v in ranges && ranges[uses[i].v].def <= uses[i].at <= ranges[uses[i].v].kill
  {
    var n := |uses| - 1;
    if i < n {
      RangesCover(params, uses[..n], i);
      assert uses[..n][i] == uses[i];
      if uses[i].v == uses[n].v {
        assert uses[i].at <= uses[n].at;
      }
    } else {
      if uses[n].v in RangesOf(params, uses[..n]) {
        DefBefore(params, uses[..n], uses[n].v, uses[n].at);
      }
    }
  }

  lemma {:induction false} DefBefore(params: map<nat, Range>, uses: seq<Use>, v: nat, at: nat)
    requires FromStart(params) && v in RangesOf(params, uses) && forall i :: 0 <= i < |uses| ==> uses[i].at <= at
    ensures RangesOf(params, uses)[v].def <= at
  {
    if uses != [] && v in RangesOf(params, uses[..|uses| - 1]) {
      DefBefore(params, uses[..|uses| - 1], v, at);
    }
  }

  lemma {:induction false} ParamsStay(params: map<nat, Range>, uses: seq<Use>, v: nat)
    requires v in params
    ensures v in RangesOf(params, uses) && RangesOf(params, uses)[v].def == params[v].def
  {
    if uses != [] {
      ParamsStay(params, uses[..|uses| - 1], v);
    }
  }

  /** Both ends of a range are mentions, unless it is a parameter's start or
      the register is mentioned once only. */
  lemma {:induction false} RangesTight(params: map<nat, Range>, uses: seq<Use>, v: nat)
    requires FromStart(params) && v in RangesOf(params, uses)
    ensures var r := RangesOf(params, uses)[v];
            && (v !in params ==> exists i :: 0 <= i < |uses| && uses[i].v == v && uses[i].at == r.def)
            && (v in params ==> r.def == 0)
            && (r.kill != NEVER ==> exists i :: 0 <= i < |uses| && uses[i].v == v && uses[i].at == r.kill)
  {
    if uses != [] {
      var n := |uses| - 1;
      var before := RangesOf(params, uses[..n]);
      if v in before {
        RangesTight(params, uses[..n], v);
        if v !in params {
          var i :| 0 <= i < n && uses[..n][i].v == v && uses[..n][i].at == before[v].def;
          assert uses[i].v == v;
        }
        if before[v].kill != NEVER {
          var i :| 0 <= i < n && uses[..n][i].v == v && uses[..n][i].at == before[v].kill;
          assert uses[i].v == v;
        }
      }
      assert v == uses[n].v || v in before;
      if v in params {
        ParamsStay(params, uses, v);
      }
    }
  }

  lemma {:induction false} OperandUsesAt(operands: seq<MOperand>, at: nat, i: nat)
    requires i < |OperandUses(operands, at)|
    ensures OperandUses(operands, at)[i].at == at
  {
    if operands != [] && i < |OperandUses(operands[..|operands| - 1], at)| {
      OperandUsesAt(operands[..|operands| - 1], at, i);
    }
  }

  lemma {:induction false} UsesBefore(code: seq<MInstr>, i: nat)
    requires i < |Uses(code)|
    ensures Uses(code)[i].at < |code|
  {
    if code != [] {
      var n := |code| - 1;
      if i < |Uses(code[..n])| {
        UsesBefore(code[..n], i);
      } else {
        OperandUsesAt(code[n].operands, n, i - |Uses(code[..n])|);
      }
    }
  }

  lemma {:induction false} UsesInOrder(code: seq<MInstr>)
    ensures InOrder(Uses(code))
  {
    if code != [] {
      var n := |code| - 1;
      UsesInOrder(code[..n]);
      var a, b := Uses(code[..n]), OperandUses(code[n].operands, n);
      var uses := a + b;
      forall i, j | 0 <= i < j < |uses|
        ensures uses[i].at <= uses[j].at
      {
        if j >= |a| {
          OperandUsesAt(code[n].operands, n, j - |a|);
          if i < |a| {
            UsesBefore(code[..n], i);
          } else {
            OperandUsesAt(code[n].operands, n, i - |a|);
          }
        }
      }
    }
  }

  /** Instruction p mentions register v. */
  ghost predicate Mentions(code: seq<MInstr>, p: nat, v: nat) {
    p < |code| && exists k :: 0 <= k < |code[p].operands| && UsedReg(code[p].operands[k]) == Some(v)
  }

  lemma {:induction false} OperandIsUsed(operands: seq<MOperand>, at: nat, k: nat, v: nat) returns (i: nat)
    requires k < |operands| && UsedReg(operands[k]) == Some(v)
    ensures i < |OperandUses(operands, at)| && OperandUses(operands, at)[i].v == v
  {
    var n := |operands| - 1;
    if k < n {
      i := OperandIsUsed(operands[..n], at, k, v);
    } else {
      i := |OperandUses(operands[..n], at)|;
    }
  }

  lemma {:induction false} MentionIsUsed(code: seq<MInstr>, p: nat, v: nat) returns (i: nat)
    requires Mentions(code, p, v)
    ensures i < |Uses(code)| && Uses(code)[i].v == v && Uses(code)[i].at == p
  {
    var n := |code| - 1;
    if p < n {
      i := MentionIsUsed(code[..n], p, v);
    } else {
      var k :| 0 <= k < |code[p].operands| && UsedReg(code[p].operands[k]) == Some(v);
      var j := OperandIsUsed(code[n].operands, n, k, v);
      OperandUsesAt(code[n].operands, n, j);
      i := |Uses(code[..n])| + j;
    }
  }

  /** Wherever a register is mentioned, it is live. */
  lemma LiveWhereMentioned(params: map<nat, Range>, code: seq<MInstr>, p: nat, v: nat)
    requires FromStart(params) && |code| <= NEVER && Mentions(code, p, v)
    ensures var ranges := RangesOf(params, Uses(code));
            v in ranges && ranges[v].def <= p <= ranges[v].kill
  {
    var uses := Uses(code);
    var i := MentionIsUsed(code, p, v);
    UsesInOrder(code);
    UsesBefore(code, |uses| - 1);
    RangesCover(params, uses, i);
  }

  // ---------------------------------------------------------------------
  // Where sizes come from
  // ---------------------------------------------------------------------

  lemma {:induction false} SizeIsUsed(uses: seq<Use>, v: nat) returns (i: nat)
    requires v in SizesOf(uses)
    ensures i < |uses| && uses[i].v == v && uses[i].size == SizesOf(uses)[v]
  {
    var n := |uses| - 1;
    if v in SizesOf(uses[..n]) {
      i := SizeIsUsed(uses[..n], v);
    } else {
      i := n;
    }
  }

  lemma {:induction false} UseIsOperand(operands: seq<MOperand>, at: nat, i: nat) returns (k: nat)
    requires i < |OperandUses(operands, at)|
    ensures var u := OperandUses(operands, at)[i];
            k < |operands| && UsedReg(operands[k]) == Some(u.v) && SizeOf(operands[k]) == u.size
  {
    var n := |operands| - 1;
    if i < |OperandUses(operands[..n], at)| {
      k := UseIsOperand(operands[..n], at, i);
    } else {
      k := n;
    }
  }

  lemma {:induction false} UseIsMention(code: seq<MInstr>, i: nat) returns (p: nat, k: nat)
    requires i < |Uses(code)|
    ensures var u := Uses(code)[i];
            p < |code| && k < |code[p].operands| && UsedReg(code[p].operands[k]) == Some(u.v) &&
              SizeOf(code[p].operands[k]) == u.size
  {
    var n := |code| - 1;
    if i < |Uses(code[..n])| {
      p, k := UseIsMention(code[..n], i);
    } else {
      p := n;
      k := UseIsOperand(code[n].operands, n, i - |Uses(code[..n])|);
    }
  }

  /** The size of a register is that of some mention. */
  lemma SizeIsMentioned(code: seq<MInstr>, v: nat) returns (p: nat, k: nat)
    requires v in SizesOf(Uses(code))
    ensures p < |code| && k < |code[p].operands|
    ensures UsedReg(code[p].operands[k]) == Some(v) && SizeOf(code[p].operands[k]) == SizesOf(Uses(code))[v]
  {
    var i := SizeIsUsed(Uses(code), v);
    p, k := UseIsMention(code, i);
  }

  // ---------------------------------------------------------------------
  // Computing them
  // ---------------------------------------------------------------------

  lemma OneMore(params: map<nat, Range>, before: seq<Use>, operands: seq<MOperand>, i: nat, at: nat)
    requires i < |operands|
    ensures var done, next := before + OperandUses(operands[..i], at), before + OperandUses(operands[..i + 1], at);
            var used := UsedReg(operands[i]);
            if used.None? then next == done
            else
              var u := Use(used.value, at, SizeOf(operands[i]));
              && RangesOf(params, next) == Extend(RangesOf(params, done), u)
              && SizesOf(next) == if u.v in SizesOf(done) then SizesOf(done) else SizesOf(done)[u.v := u.size]
  {
    assert operands[..i + 1][..i] == operands[..i];
    var done, used := before + OperandUses(operands[..i], at), UsedReg(operands[i]);
    if used.Some? {
      var u := Use(used.value, at, SizeOf(operands[i]));
      assert before + OperandUses(operands[..i + 1], at) == done + [u];
      assert (done + [u])[..|done|] == done;
    } else {
      assert before + OperandUses(operands[..i + 1], at) == done;
    }
  }

  method ComputeLiveRanges(code: seq<MInstr>, params: map<nat, Range>) returns (ranges: map<nat, Range>,
                           sizes: map<nat, nat>)
    ensures ranges == RangesOf(params, Uses(code)) && sizes == SizesOf(Uses(code))
  {
    hide RangesOf, SizesOf, OperandUses;
    Nothing(params);
    ranges, sizes := params, map[];
    for counter := 0 to |code|
      invariant ranges == RangesOf(params, Uses(code[..counter])) && sizes == SizesOf(Uses(code[..counter]))
    {
      ghost var before := Uses(code[..counter]);
      var operands := code[counter].operands;
      NoOperands(before, counter);
      for i := 0 to |operands|
        invariant ranges == RangesOf(params, before + OperandUses(operands[..i], counter))
        invariant sizes == SizesOf(before + OperandUses(operands[..i], counter))
      {
        OneMore(params, before, operands, i, counter);
        var used := UsedReg(operands[i]);
        if used.Some? {
          var v := used.value;
          if v !in sizes {
            sizes := sizes[v := SizeOf(operands[i])];
          }
          if v !in ranges {
            ranges := ranges[v := Range(counter, NEVER)];
          } else {
            ranges := ranges[v := Range(ranges[v].def, counter)];
          }
        }
      }
      assert operands[..|operands|] == operands;
      assert code[..counter + 1][..counter] == code[..counter];
    }
    assert code[..|code|] == code;
  }

  lemma Nothing(params: map<nat, Range>)
    ensures RangesOf(params, []) == params && SizesOf([]) == map[]
  {
  }

  lemma NoOperands(before: seq<Use>, at: nat)
    ensures before + OperandUses([], at) == before
  {
  }
}
