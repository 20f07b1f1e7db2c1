/** The legalizer: it walks each block with an index, rewrites what the target
    lacks in place, and looks at the rewritten instructions again. */
module Legalizer {
  import opened Words
  import opened Source
  import opened MachineIR
  import opened Expansions

  // ---------------------------------------------------------------------
  // Fresh registers
  // ---------------------------------------------------------------------

  function OpndIds(o: MOpnd): seq<nat> {
    if o.VReg? then [o.v] else []
  }

  function OpndsIds(os: seq<MOpnd>): seq<nat> {
    if os == [] then [] else OpndIds(os[0]) + OpndsIds(os[1..])
  }

  /** The virtual register operands in order; the registers inside memory
      operands are not among them. */
  function OperandIds(i: MIR): seq<nat> {
    match i
    case Arith(_, dst, a, b) => [dst] + OpndIds(a) + OpndIds(b)
    case LoadImm(dst, _) => [dst]
    case Load(dst, _, _) => [dst]
    case ZextLoad(dst, dropped, _, _) => [dst, dropped]
    case Zext(dst, src, _) => [dst] + OpndIds(src)
    case Store(_, src) => OpndIds(src)
    case GlobalAddress(dst, _) => [dst]
    case Adrp(dst, _) => [dst]
    case AddLo12(dst, page, _) => [dst, page]
    case Other(_, def, srcs) => (if def.Some? then [def.value] else []) + OpndsIds(srcs)
  }

  function BlockIds(code: seq<MIR>): seq<nat> {
    if code == [] then [] else BlockIds(code[..|code| - 1]) + OperandIds(code[|code| - 1])
  }

  function BlocksIds(blocks: seq<seq<MIR>>): seq<nat> {
    if blocks == [] then [] else BlocksIds(blocks[..|blocks| - 1]) + BlockIds(blocks[|blocks| - 1])
  }

  /** The counter after one more register was seen... */
  function Bump(n: nat, id: nat): nat {
    if id < n then n else if id == n then n + 1 else id
  }

  /** ...and after all of them were. */
  function Reach(n: nat, ids: seq<nat>): nat {
    if ids == [] then n else Bump(Reach(n, ids[..|ids| - 1]), ids[|ids| - 1])
  }

  lemma ReachSnoc(n: nat, ids: seq<nat>, id: nat)
    ensures Reach(n, ids + [id]) == Bump(Reach(n, ids), id)
  {
    assert (ids + [id])[..|ids|] == ids;
  }

  lemma {:induction false} ReachAtMost(n: nat, ids: seq<nat>)
    requires forall k :: 0 <= k < |ids| ==> ids[k] <= n
    ensures Reach(n, ids) == if n in ids then n + 1 else n
  {
    if ids != [] {
      var m := |ids| - 1;
      ReachAtMost(n, ids[..m]);
      assert ids == ids[..m] + [ids[m]];
    }
  }

  /** The register the counter stands for: when it was taken from the slots of
      a function's parameters, it can be the number of the last parameter. */
  function FirstFree(params: seq<nat>, n: nat): nat {
    if n in params then n + 1 else n
  }

  lemma {:induction false} ReachAll(n: nat, ids: seq<nat>)
    ensures Reach(n, ids) >= n && forall k :: 0 <= k < |ids| ==> ids[k] <= Reach(n, ids)
  {
    if ids != [] {
      var m := |ids| - 1;
      ReachAll(n, ids[..m]);
      forall k | 0 <= k < |ids|
        ensures ids[k] <= Reach(n, ids)
      {
        if k < m {
          assert ids[..m][k] == ids[k];
        }
      }
    }
  }

  /** The i-th register lies beyond the counter when it is seen, and all other
      registers are smaller. */
  ghost predicate Jumps(n: nat, ids: seq<nat>, i: nat) {
    i < |ids| && ids[i] > Reach(n, ids[..i]) && forall j :: 0 <= j < |ids| && j != i ==> ids[j] < ids[i]
  }

  /** The register handed out is new unless the counter was behind and jumped
      onto the largest register, which occurs once. */
  lemma {:induction false} FreshExactly(n: nat, ids: seq<nat>)
    ensures Reach(n, ids) in ids <==> exists i :: Jumps(n, ids, i)
  {
    if ids != [] {
      var m := |ids| - 1;
      var before, x := ids[..m], ids[m];
      ReachAll(n, before);
      FreshExactly(n, before);
      assert ids == before + [x];
      if x > Reach(n, before) {
        forall j | 0 <= j < m
          ensures ids[j] < x
        {
          assert before[j] == ids[j];
        }
        assert Jumps(n, ids, m);
      } else if x == Reach(n, before) {
        forall i
          ensures !Jumps(n, ids, i)
        {
          if Jumps(n, ids, i) {
            JumpStays(n, ids, i);
          }
        }
        forall j | 0 <= j < |ids|
          ensures ids[j] < Reach(n, ids)
        {
          assert j < m ==> before[j] == ids[j];
        }
      } else {
        forall i
          ensures Jumps(n, ids, i) <==> Jumps(n, before, i)
        {
          JumpsBefore(n, ids, i);
        }
      }
    }
  }

  /** A counter that is behind the only register gives it out again.  So for
      f(int a, struct S s): when the first register for s is wanted, nothing but
      the parameter a, number 1, has been seen, and the counter is still 0. */
  lemma StructTakesParameter(n: nat, a: nat)
    requires n < a
    ensures Jumps(n, [a], 0) && Reach(n, [a]) == a && Reach(0, [1]) == 1
  {
    assert [a][..0] == [];
  }

  lemma {:induction false} JumpStays(n: nat, ids: seq<nat>, i: nat)
    requires Jumps(n, ids, i)
    ensures Reach(n, ids) == ids[i]
    decreases |ids|
  {
    var m := |ids| - 1;
    if i < m {
      var before := ids[..m];
      assert before[..i] == ids[..i];
      assert Jumps(n, before, i) by {
        forall j | 0 <= j < m && j != i
          ensures before[j] < before[i]
        {
          assert before[j] == ids[j];
        }
      }
      JumpStays(n, before, i);
    }
  }

  lemma JumpsBefore(n: nat, ids: seq<nat>, i: nat)
    requires ids != [] && ids[|ids| - 1] < Reach(n, ids[..|ids| - 1])
    ensures Jumps(n, ids, i) <==> Jumps(n, ids[..|ids| - 1], i)
  {
    var m := |ids| - 1;
    var before := ids[..m];
    if i < m {
      assert before[..i] == ids[..i];
      assert forall j :: 0 <= j < m ==> before[j] == ids[j];
      if Jumps(n, before, i) {
        JumpStays(n, before, i);
      }
    } else if i == m {
      assert ids[..i] == before;
    }
  }

  // ---------------------------------------------------------------------
  // What the walk keeps
  // ---------------------------------------------------------------------

  ghost predicate AllBelow(params: seq<nat>, blocks: seq<seq<MIR>>, n: nat) {
    && (forall k :: 0 <= k < |params| ==> params[k] < n)
    && (forall b :: 0 <= b < |blocks| ==> CodeBelow(blocks[b], n))
  }

  ghost predicate CodeBelow(code: seq<MIR>, n: nat) {
    forall k :: 0 <= k < |code| ==> Below(code[k], n)
  }

  ghost predicate AllWellShaped(code: seq<MIR>) {
    forall k :: 0 <= k < |code| ==> WellShaped(code[k])
  }

  ghost predicate LegalUpTo(code: seq<MIR>, i: nat) {
    i <= |code| && forall k :: 0 <= k < i ==> Legal(code, k)
  }

  /** Every zero extension directly behind a load extends the loaded value,
      whose register is given up and not mentioned again. */
  ghost predicate ZextsFit(code: seq<MIR>, given: set<nat>) {
    forall k :: 0 < k < |code| && code[k].Zext? && code[k - 1].Load? ==>
      && code[k].src == VReg(code[k - 1].dst) && code[k].width == code[k - 1].width
      && (code[k].dst == code[k - 1].dst || (code[k - 1].dst in given && NotMentioned(code, k + 1, code[k - 1].dst)))
  }

  ghost predicate NotMentioned(code: seq<MIR>, from: nat, v: nat) {
    forall j :: from <= j < |code| ==> v !in Mentioned(code[j])
  }

  /** The state of the walk: everything before i is legal, and if the original
      zero extensions fit, the code so far means what the original meant. */
  ghost predicate Walking(e: Setting, original: seq<MIR>, code: seq<MIR>, i: nat, n: nat, given: set<nat>) {
    && LegalUpTo(code, i) && AllWellShaped(code)
    && (ZextsFit(original, given) ==> ZextsFit(code, given) && Preserves(e, original, code, n, given))
  }

  function Splice(code: seq<MIR>, i: nat, x: seq<MIR>): seq<MIR>
    requires i < |code|
  {
    code[..i] + x + code[i + 1..]
  }

  lemma BlockIdsBelow(code: seq<MIR>, n: nat)
    requires CodeBelow(code, n)
    ensures forall k :: 0 <= k < |BlockIds(code)| ==> BlockIds(code)[k] < n
  {
    if code != [] {
      var m := |code| - 1;
      BlockIdsBelow(code[..m], n);
      assert Below(code[m], n);
      OperandIdsBelow(code[m], n);
    }
  }

  lemma OperandIdsBelow(i: MIR, n: nat)
    requires Below(i, n)
    ensures forall k :: 0 <= k < |OperandIds(i)| ==> OperandIds(i)[k] < n
  {
    if i.Other? {
      assert Reads(i) == AllRegs(i.srcs);
      OpndsIdsBelow(i.srcs, n);
      assert i.def.Some? ==> i.def.value in Writes(i);
    } else {
      forall k | 0 <= k < |OperandIds(i)|
        ensures OperandIds(i)[k] < n
      {
        var id := OperandIds(i)[k];
        assert id in Reads(i) || id in Writes(i) || (i.ZextLoad? && id == i.dropped);
      }
    }
  }

  lemma {:induction false} OpndsIdsBelow(os: seq<MOpnd>, n: nat)
    requires forall v :: v in AllRegs(os) ==> v < n
    ensures forall k :: 0 <= k < |OpndsIds(os)| ==> OpndsIds(os)[k] < n
  {
    if os != [] {
      forall v | v in AllRegs(os[1..])
        ensures v < n
      {
        var k :| 0 <= k < |os[1..]| && os[1..][k].VReg? && os[1..][k].v == v;
        assert os[k + 1].VReg? && v in AllRegs(os);
      }
      OpndsIdsBelow(os[1..], n);
      assert os[0].VReg? ==> os[0].v in AllRegs(os);
    }
  }

  lemma {:induction false} BlocksIdsBelow(blocks: seq<seq<MIR>>, n: nat)
    requires forall b :: 0 <= b < |blocks| ==> CodeBelow(blocks[b], n)
    ensures forall k :: 0 <= k < |BlocksIds(blocks)| ==> BlocksIds(blocks)[k] < n
  {
    if blocks != [] {
      var m := |blocks| - 1;
      BlocksIdsBelow(blocks[..m], n);
      BlockIdsBelow(blocks[m], n);
    }
  }

  // ---------------------------------------------------------------------
  // One rewrite
  // ---------------------------------------------------------------------

  lemma ExpandedIsLegal(code: seq<MIR>, i: nat, x: seq<MIR>)
    requires i < |code| && LegalUpTo(code, i)
    ensures LegalUpTo(Splice(code, i, x), i)
  {
    var after := Splice(code, i, x);
    forall k | 0 <= k < i
      ensures Legal(after, k)
    {
      assert Legal(code, k);
      assert after[k] == code[k] && (k > 0 ==> after[k - 1] == code[k - 1]);
    }
  }

  /** Expanding an instruction keeps the walk's state; what remains to be
      walked gets lighter. */
  lemma ExpandKeeps(e: Setting, original: seq<MIR>, code: seq<MIR>, i: nat, n: nat, given: set<nat>, unused: nat)
    requires Walking(e, original, code, i, n, given) && i < |code| && NeedsExpansion(code[i])
    requires CodeBelow(code, unused) && n <= unused
    ensures var after := Splice(code, i, Expansion(code[i], unused));
            && Walking(e, original, after, i, n, given)
            && CodeBelow(after, unused + FreshCount(code[i]))
            && TotalWeight(after[i..]) < TotalWeight(code[i..])
  {
    hide Preserves, Replaces, Below, Expansion, FreshCount, WellShaped, ZextsFit, LegalUpTo, TotalWeight;
    var x := Expansion(code[i], unused);
    var after := Splice(code, i, x);
    ExpandedIsLegal(code, i, x);
    ExpandedIsLight(code, i, unused);
    if ZextsFit(original, given) {
      ExpandedMeans(e, original, code, i, n, given, unused);
      ExpandedFits(code, i, given, unused);
    }
    forall k | 0 <= k < |after|
      ensures WellShaped(after[k]) && Below(after[k], unused + FreshCount(code[i]))
    {
      ExpandedShape(code, i, unused, k);
    }
  }

  lemma ExpandedShape(code: seq<MIR>, i: nat, unused: nat, k: nat)
    requires i < |code| && NeedsExpansion(code[i]) && CodeBelow(code, unused) && AllWellShaped(code)
    requires k < |Splice(code, i, Expansion(code[i], unused))|
    ensures var after := Splice(code, i, Expansion(code[i], unused));
            WellShaped(after[k]) && Below(after[k], unused + FreshCount(code[i]))
  {
    hide Below, Expansion, FreshCount, WellShaped;
    var x := Expansion(code[i], unused);
    var after := Splice(code, i, x);
    assert Below(code[i], unused) && WellShaped(code[i]);
    if i <= k < i + |x| {
      assert after[k] == x[k - i];
      ExpansionIsLighter(code[i], unused);
      ExpansionRegs(code[i], unused, k - i);
    } else {
      var k' := if k < i then k else k - |x| + 1;
      assert after[k] == code[k'];
      BelowLater(code[k'], unused, unused + FreshCount(code[i]));
    }
  }

  lemma BelowLater(i: MIR, n: nat, n': nat)
    requires Below(i, n) && n <= n'
    ensures Below(i, n')
  {
  }

  lemma ExpandedIsLight(code: seq<MIR>, i: nat, unused: nat)
    requires i < |code| && NeedsExpansion(code[i]) && WellShaped(code[i])
    ensures TotalWeight(Splice(code, i, Expansion(code[i], unused))[i..]) < TotalWeight(code[i..])
  {
    hide TotalWeight;
    var x := Expansion(code[i], unused);
    assert Splice(code, i, x)[i..] == x + code[i + 1..];
    assert code[i..] == [code[i]] + code[i + 1..];
    TotalWeightAppend(x, code[i + 1..]);
    TotalWeightAppend([code[i]], code[i + 1..]);
    ExpansionIsLighter(code[i], unused);
    Weigh1(code[i]);
  }

  lemma ExpandedMeans(e: Setting, original: seq<MIR>, code: seq<MIR>, i: nat, n: nat, given: set<nat>, unused: nat)
    requires i < |code| && NeedsExpansion(code[i]) && WellShaped(code[i]) && CodeBelow(code, unused) && n <= unused
    requires Preserves(e, original, code, n, given)
    ensures Preserves(e, original, Splice(code, i, Expansion(code[i], unused)), n, given)
  {
    hide Run, Step, Expansion, Preserves;
    var x, post := [code[i]], code[i + 1..];
    assert code == code[..i] + x + post;
    assert Below(code[i], unused);
    forall s: State | Run(e, x, s).Some?
      ensures Run(e, Expansion(code[i], unused), s).Some?
      ensures SameBut(Run(e, x, s).value, Run(e, Expansion(code[i], unused), s).value, {unused, unused + 1})
    {
      Run1(e, code[i], s);
      ExpansionRuns(e, code[i], unused, s);
    }
    forall k | 0 <= k < |post|
      ensures Reads(post[k]) !! {unused, unused + 1}
    {
      assert Below(code[i + 1 + k], unused);
    }
    ReplaceKeeps(e, original, code[..i], x, Expansion(code[i], unused), post, n, given, {unused, unused + 1});
  }

  lemma ExpandedFits(code: seq<MIR>, i: nat, given: set<nat>, unused: nat)
    requires i < |code| && NeedsExpansion(code[i]) && CodeBelow(code, unused) && ZextsFit(code, given)
    ensures ZextsFit(Splice(code, i, Expansion(code[i], unused)), given)
  {
    var x := Expansion(code[i], unused);
    var after := Splice(code, i, x);
    ExpansionKinds(code[i], unused);
    forall j | i <= j < i + |x|
      ensures !after[j].Zext? && !after[j].Load?
    {
      assert after[j] == x[j - i];
    }
    forall k | 0 < k < |after| && after[k].Zext? && after[k - 1].Load?
      ensures after[k].src == VReg(after[k - 1].dst) && after[k].width == after[k - 1].width
      ensures after[k].dst == after[k - 1].dst || (after[k - 1].dst in given &&
              NotMentioned(after, k + 1, after[k - 1].dst))
    {
      assert !(i <= k < i + |x|) && !(i <= k - 1 < i + |x|);
      var k' := if k < i then k else k - |x| + 1;
      assert after[k] == code[k'] && after[k - 1] == code[k' - 1];
      assert Below(code[k' - 1], unused) && code[k' - 1].dst in Writes(code[k' - 1]);
      if after[k].dst != after[k - 1].dst {
        StillNotMentioned(code, i, unused, k' + 1, after[k - 1].dst);
      }
    }
  }

  lemma ExpansionKinds(i: MIR, n: nat)
    requires NeedsExpansion(i)
    ensures |Expansion(i, n)| >= 1
    ensures forall k :: 0 <= k < |Expansion(i, n)| ==> !Expansion(i, n)[k].Zext? && !Expansion(i, n)[k].Load?
  {
  }

  lemma StillNotMentioned(code: seq<MIR>, i: nat, unused: nat, from: nat, v: nat)
    requires i < |code| && NeedsExpansion(code[i]) && CodeBelow(code, unused) && NotMentioned(code, from, v) &&
             v < unused
    ensures var x := Expansion(code[i], unused);
            NotMentioned(Splice(code, i, x), if from <= i then from else from + |x| - 1, v)
  {
    var x := Expansion(code[i], unused);
    var after := Splice(code, i, x);
    var from' := if from <= i then from else from + |x| - 1;
    forall j | from' <= j < |after|
      ensures v !in Mentioned(after[j])
    {
      if i <= j < i + |x| {
        assert after[j] == x[j - i] && Below(code[i], unused);
        ExpansionRegs(code[i], unused, j - i);
      } else {
        assert after[j] == code[if j < i then j else j - |x| + 1];
      }
    }
  }

  /** The block after the zero extension at i was merged into the load before
      it. */
  function Merged(code: seq<MIR>, i: nat): seq<MIR>
    requires 0 < i < |code| && code[i].Zext? && code[i - 1].Load?
  {
    var load := code[i - 1];
    code[..i - 1] + [ZextLoad(code[i].dst, load.dst, load.from, load.width)] + code[i + 1..]
  }

  lemma MergedMeans(e: Setting, original: seq<MIR>, code: seq<MIR>, i: nat, n: nat, given: set<nat>)
    requires 0 < i < |code| && code[i].Zext? && code[i - 1].Load? && ZextsFit(code, given)
    requires Preserves(e, original, code, n, given)
    ensures Preserves(e, original, Merged(code, i), n, given)
  {
    hide Run, Step, Preserves;
    var load, zext := code[i - 1], code[i];
    var x, post := [load, zext], code[i + 1..];
    var y := [ZextLoad(zext.dst, load.dst, load.from, load.width)];
    var but := if load.dst == zext.dst then {} else {load.dst};
    assert code == code[..i - 1] + x + post;
    assert x == [Load(load.dst, load.from, load.width), Zext(zext.dst, VReg(load.dst), load.width)];
    forall s: State | Run(e, x, s).Some?
      ensures Run(e, y, s).Some? && SameBut(Run(e, x, s).value, Run(e, y, s).value, but)
    {
      MergeRuns(e, load.dst, load.from, load.width, zext.dst, s);
    }
    forall k | 0 <= k < |post|
      ensures Reads(post[k]) !! but
    {
      assert post[k] == code[i + 1 + k];
    }
    ReplaceKeeps(e, original, code[..i - 1], x, y, post, n, given, but);
  }

  lemma MergedFits(code: seq<MIR>, i: nat, given: set<nat>)
    requires 0 < i < |code| && code[i].Zext? && code[i - 1].Load? && ZextsFit(code, given)
    ensures ZextsFit(Merged(code, i), given)
  {
    var after := Merged(code, i);
    forall k | 0 < k < |after| && after[k].Zext? && after[k - 1].Load?
      ensures after[k].src == VReg(after[k - 1].dst) && after[k].width == after[k - 1].width
      ensures after[k].dst == after[k - 1].dst || (after[k - 1].dst in given &&
              NotMentioned(after, k + 1, after[k - 1].dst))
    {
      assert k < i - 1 || k > i;
      var k' := if k < i then k else k + 1;
      assert after[k] == code[k'] && after[k - 1] == code[k' - 1];
      if after[k].dst != after[k - 1].dst {
        MergedNotMentioned(code, i, k' + 1, after[k - 1].dst);
      }
    }
  }

  lemma MergedNotMentioned(code: seq<MIR>, i: nat, from: nat, v: nat)
    requires 0 < i < |code| && code[i].Zext? && code[i - 1].Load? && NotMentioned(code, from, v) && from != i
    ensures NotMentioned(Merged(code, i), if from < i then from else from - 1, v)
  {
    var after := Merged(code, i);
    var from' := if from < i then from else from - 1;
    forall j | from' <= j < |after|
      ensures v !in Mentioned(after[j])
    {
      if j < i - 1 {
        assert after[j] == code[j];
      } else if j == i - 1 {
        assert v !in Mentioned(code[i - 1]) && v !in Mentioned(code[i]);
      } else {
        assert after[j] == code[j + 1];
      }
    }
  }

  lemma MergedShape(code: seq<MIR>, i: nat, unused: nat)
    requires 0 < i < |code| && code[i].Zext? && code[i - 1].Load?
    requires LegalUpTo(code, i) && AllWellShaped(code) && CodeBelow(code, unused)
    ensures var after := Merged(code, i);
            LegalUpTo(after, i) && AllWellShaped(after) && CodeBelow(after, unused)
  {
    var after := Merged(code, i);
    assert Below(code[i - 1], unused) && Below(code[i], unused);
    assert code[i - 1].dst in Writes(code[i - 1]) && code[i].dst in Writes(code[i]);
    assert Reads(after[i - 1]) == Reads(code[i - 1]) && Writes(after[i - 1]) == Writes(code[i]);
    forall k | 0 <= k < |after|
      ensures WellShaped(after[k]) && Below(after[k], unused) && (k < i ==> Legal(after, k))
    {
      if k != i - 1 {
        assert after[k] == code[if k < i then k else k + 1];
      }
      if k < i - 1 {
        assert Legal(code, k) && (k > 0 ==> after[k - 1] == code[k - 1]);
      }
    }
  }

  lemma MergedIsLight(code: seq<MIR>, i: nat)
    requires 0 < i < |code| && code[i].Zext? && code[i - 1].Load?
    ensures TotalWeight(Merged(code, i)[i..]) < TotalWeight(code[i..])
  {
    assert Merged(code, i)[i..] == code[i + 1..] == code[i..][1..];
  }

  /** Merging a zero extension keeps the walk's state, too. */
  lemma MergeKeeps(e: Setting, original: seq<MIR>, code: seq<MIR>, i: nat, n: nat, given: set<nat>, unused: nat)
    requires Walking(e, original, code, i, n, given) && CodeBelow(code, unused)
    requires 0 < i < |code| && code[i].Zext? && code[i - 1].Load?
    ensures var after := Merged(code, i);
            && Walking(e, original, after, i, n, given) && CodeBelow(after, unused)
            && TotalWeight(after[i..]) < TotalWeight(code[i..])
  {
    hide Preserves, ZextsFit, TotalWeight;
    if ZextsFit(original, given) {
      MergedMeans(e, original, code, i, n, given);
      MergedFits(code, i, given);
    }
    MergedShape(code, i, unused);
    MergedIsLight(code, i);
  }

  /** Passing a legal instruction. */
  lemma PassKeeps(e: Setting, original: seq<MIR>, code: seq<MIR>, i: nat, n: nat, given: set<nat>)
    requires Walking(e, original, code, i, n, given) && i < |code| && Legal(code, i)
    ensures Walking(e, original, code, i + 1, n, given) && TotalWeight(code[i + 1..]) < TotalWeight(code[i..])
  {
    hide Preserves, ZextsFit;
    assert code[i..][1..] == code[i + 1..];
  }

  /** The destinations of loads that a zero extension to another register
      follows directly. */
  function GivenUp(code: seq<MIR>): set<nat> {
    set k | 0 < k < |code| && code[k].Zext? && code[k - 1].Load? && code[k].dst != code[k - 1].dst :: code[k - 1].dst
  }

  /** What the meaning of a block relies on: a zero extension directly behind a
      load extends the loaded value, which nothing mentions later. */
  ghost predicate Mergeable(code: seq<MIR>) {
    ZextsFit(code, GivenUp(code))
  }

  lemma WalkStarts(e: Setting, code: seq<MIR>, n: nat)
    requires AllWellShaped(code)
    ensures Walking(e, code, code, 0, n, GivenUp(code))
  {
    hide Run, ZextsFit;
  }

  // ---------------------------------------------------------------------
  // The pass
  // ---------------------------------------------------------------------

  class MachineFunction {
    const params: seq<nat>
    var blocks: seq<seq<MIR>>
    var nextVReg: nat

    constructor (params: seq<nat>, blocks: seq<seq<MIR>>, nextVReg: nat)
      ensures this.params == params && this.blocks == blocks && this.nextVReg == nextVReg
    {
      this.params, this.blocks, this.nextVReg := params, blocks, nextVReg;
    }

    /** Moves the counter past the registers it meets. */
    method GetNextAvailableVReg() returns (r: nat)
      modifies this`nextVReg
      ensures r == Reach(old(nextVReg), params + BlocksIds(blocks)) && nextVReg == r + 1
      ensures old(AllFresh()) ==> r == old(Unused()) && Unused() == r + 1
    {
      hide Reach, OperandIds, AllBelow;
      if AllFresh() {
        ReachFresh(params, blocks, nextVReg);
        FirstFreeLater(params, blocks, Unused(), Unused() + 1);
      }
      ghost var start := nextVReg;
      ReachNothing(start);
      for k := 0 to |params|
        invariant nextVReg == Reach(start, params[..k])
      {
        ReachSnoc(start, params[..k], params[k]);
        assert params[..k + 1] == params[..k] + [params[k]];
        See(params[k]);
      }
      assert params[..|params|] == params == params + BlocksIds(blocks[..0]);
      for b := 0 to |blocks|
        invariant nextVReg == Reach(start, params + BlocksIds(blocks[..b]))
      {
        ghost var before := params + BlocksIds(blocks[..b]);
        var code := blocks[b];
        assert before + BlockIds(code[..0]) == before;
        for i := 0 to |code|
          invariant nextVReg == Reach(start, before + BlockIds(code[..i]))
        {
          SeeAll(OperandIds(code[i]), start, before + BlockIds(code[..i]));
          assert code[..i + 1][..i] == code[..i];
          assert before + BlockIds(code[..i + 1]) == before + BlockIds(code[..i]) + OperandIds(code[i]);
        }
        assert code[..|code|] == code;
        assert blocks[..b + 1][..b] == blocks[..b];
        assert params + BlocksIds(blocks[..b + 1]) == before + BlockIds(code);
      }
      assert blocks[..|blocks|] == blocks;
      r := nextVReg;
      nextVReg := nextVReg + 1;
    }

    method See(id: nat)
      modifies this`nextVReg
      ensures nextVReg == Bump(old(nextVReg), id)
    {
      if id >= nextVReg {
        nextVReg := if id == nextVReg then nextVReg + 1 else id;
      }
    }

    method SeeAll(ids: seq<nat>, ghost start: nat, ghost before: seq<nat>)
      requires nextVReg == Reach(start, before)
      modifies this`nextVReg
      ensures nextVReg == Reach(start, before + ids)
    {
      hide Reach;
      assert before + ids[..0] == before;
      for k := 0 to |ids|
        invariant nextVReg == Reach(start, before + ids[..k])
      {
        ReachSnoc(start, before + ids[..k], ids[k]);
        assert before + ids[..k + 1] == before + ids[..k] + [ids[k]];
        See(ids[k]);
      }
      assert ids[..|ids|] == ids;
    }

    ghost function Unused(): nat
      reads this
    {
      FirstFree(params, nextVReg)
    }

    /** The counter is ahead of all registers, or at the last parameter. */
    ghost predicate AllFresh()
      reads this
    {
      AllBelow(params, blocks, Unused())
    }

    /** Searches the block for an instruction by its address, which is its place;
        the result is the length of the block if it is not there. */
    method Find(b: nat, address: nat) returns (i: nat)
      requires b < |blocks|
      ensures i == if address < |blocks[b]| then address else |blocks[b]|
    {
      i := 0;
      while i < |blocks[b]| && i != address
        invariant i <= |blocks[b]| && i <= address
      {
        i := i + 1;
      }
    }

    /** An instruction is changed where it stands. */
    method SetInstr(b: nat, i: nat, mi: MIR)
      requires b < |blocks| && i < |blocks[b]|
      modifies this`blocks
      ensures blocks == old(blocks)[b := old(blocks[b])[i := mi]]
    {
      blocks := blocks[b := blocks[b][i := mi]];
    }

    method ReplaceInstr(b: nat, replaced: nat, mi: MIR)
      requires b < |blocks| && replaced < |blocks[b]|
      modifies this`blocks
      ensures blocks == old(blocks)[b := old(blocks[b])[replaced := mi]]
    {
      var i := Find(b, replaced);
      blocks := blocks[b := blocks[b][i := mi]];
    }

    method InsertInstr(b: nat, pos: nat, mi: MIR)
      requires b < |blocks| && pos <= |blocks[b]|
      modifies this`blocks
      ensures blocks == old(blocks)[b := old(blocks[b])[..pos] + [mi] + old(blocks[b])[pos..]]
    {
      blocks := blocks[b := blocks[b][..pos] + [mi] + blocks[b][pos..]];
    }

    method InsertBefore(b: nat, before: nat, mi: MIR)
      requires b < |blocks| && before < |blocks[b]|
      modifies this`blocks
      ensures blocks == old(blocks)[b := old(blocks[b])[..before] + [mi] + old(blocks[b])[before..]]
    {
      var i := Find(b, before);
      InsertInstr(b, i, mi);
    }

    method InsertAfter(b: nat, after: nat, mi: MIR)
      requires b < |blocks| && after < |blocks[b]|
      modifies this`blocks
      ensures blocks == old(blocks)[b := old(blocks[b])[..after + 1] + [mi] + old(blocks[b])[after + 1..]]
    {
      var i := Find(b, after);
      InsertInstr(b, i + 1, mi);
    }

    /** Erasing what is not there changes nothing. */
    method EraseInstr(b: nat, erased: nat)
      requires b < |blocks|
      modifies this`blocks
      ensures blocks == if erased < |old(blocks[b])| then
                          old(blocks)[b := old(blocks[b])[..erased] + old(blocks[b])[erased + 1..]]
                        else old(blocks)
    {
      var i := Find(b, erased);
      if i < |blocks[b]| {
        blocks := blocks[b := blocks[b][..i] + blocks[b][i + 1..]];
      }
    }

    /** A remainder becomes a division, a multiplication and a subtraction. */
    method ExpandMOD(b: nat, i: nat, unsigned: bool)
      requires b < |blocks| && i < |blocks[b]| && AllFresh() && WellShaped(blocks[b][i])
      requires blocks[b][i].Arith? && blocks[b][i].op == if unsigned then MODU else MOD
      modifies this`blocks, this`nextVReg
      ensures blocks == old(blocks)[b := Splice(old(blocks[b]), i, Expansion(old(blocks[b][i]), old(Unused())))]
      ensures Unused() == old(Unused()) + FreshCount(old(blocks[b][i]))
    {
      hide AllBelow, Splice, BlocksIds, Reach;
      ghost var code := blocks[b];
      var mi := blocks[b][i];
      var divResult := GetNextAvailableVReg();
      ReplaceInstr(b, i, Arith(if unsigned then DIVU else DIV, divResult, mi.a, mi.b));
      ReplacedBelow(params, old(blocks), b, i, blocks[b][i], divResult);
      var mulResult := GetNextAvailableVReg();
      ghost var x := Expansion(mi, divResult);
      SpliceThree(code, i, x);
      assert blocks[b] == code[i := x[0]];
      InsertAfter(b, i, Arith(MUL, mulResult, VReg(divResult), mi.b));
      assert blocks[b] == code[i := x[0]][..i + 1] + [x[1]] + code[i := x[0]][i + 1..];
      InsertAfter(b, i + 1, Arith(SUB, mi.dst, mi.a, VReg(mulResult)));
      assert blocks[b] == Splice(code, i, x);
    }

    /** An immediate operand is loaded into a register first. */
    method ExpandArithmeticInstWithImm(b: nat, i: nat, index: nat)
      requires b < |blocks| && i < |blocks[b]| && AllFresh() && NeedsExpansion(blocks[b][i]) && blocks[b][i].Arith?
      requires index == if blocks[b][i].op == SUB then 1 else 2
      requires blocks[b][i].op != MOD && blocks[b][i].op != MODU
      modifies this`blocks, this`nextVReg
      ensures blocks == old(blocks)[b := Splice(old(blocks[b]), i, Expansion(old(blocks[b][i]), old(Unused())))]
      ensures Unused() == old(Unused()) + FreshCount(old(blocks[b][i]))
    {
      ghost var code := blocks[b];
      var mi := blocks[b][i];
      var dest := GetNextAvailableVReg();
      var imm := if index == 1 then mi.a else mi.b;
      SetInstr(b, i, if index == 1 then mi.(a := VReg(dest)) else mi.(b := VReg(dest)));
      InsertBefore(b, i, LoadImm(dest, imm.n));
      SpliceTwo(code, i, Expansion(mi, dest));
    }

    /** Zero is stored from the zero register, any other immediate is loaded
        into a register first. */
    method ExpandSTORE(b: nat, i: nat)
      requires b < |blocks| && i < |blocks[b]| && AllFresh() && NeedsExpansion(blocks[b][i]) && blocks[b][i].Store?
      modifies this`blocks, this`nextVReg
      ensures blocks == old(blocks)[b := Splice(old(blocks[b]), i, Expansion(old(blocks[b][i]), old(Unused())))]
      ensures Unused() == old(Unused()) + FreshCount(old(blocks[b][i]))
    {
      ghost var code := blocks[b];
      var mi := blocks[b][i];
      if mi.src.n == 0 {
        SetInstr(b, i, Store(mi.to, ZeroReg));
        SpliceOne(code, i, Expansion(mi, Unused()));
        return;
      }
      var dest := GetNextAvailableVReg();
      SetInstr(b, i, Store(mi.to, VReg(dest)));
      InsertBefore(b, i, LoadImm(dest, mi.src.n));
      SpliceTwo(code, i, Expansion(mi, dest));
    }

    /** The address of a symbol is that of its page plus its low bits. */
    method ExpandGLOBAL_ADDRESS(b: nat, i: nat)
      requires b < |blocks| && i < |blocks[b]| && blocks[b][i].GlobalAddress?
      modifies this`blocks
      ensures blocks == old(blocks)[b := Splice(old(blocks[b]), i, Expansion(old(blocks[b][i]), old(Unused())))]
    {
      ghost var code := blocks[b];
      var mi := blocks[b][i];
      SetInstr(b, i, Adrp(mi.dst, mi.symbol));
      InsertAfter(b, i, AddLo12(mi.dst, mi.dst, mi.symbol));
      SpliceTwo(code, i, Expansion(mi, Unused()));
    }

    /** The load before a zero extension becomes a zero-extending load. */
    method ExpandZEXT(b: nat, i: nat)
      requires b < |blocks| && 0 < i < |blocks[b]| && blocks[b][i].Zext? && blocks[b][i - 1].Load?
      modifies this`blocks
      ensures blocks == old(blocks)[b := Merged(old(blocks[b]), i)]
    {
      ghost var code := blocks[b];
      var load := blocks[b][i - 1];
      SetInstr(b, i - 1, ZextLoad(blocks[b][i].dst, load.dst, load.from, load.width));
      EraseInstr(b, i);
      assert blocks[b] == Merged(code, i);
    }

    method Check(b: nat, i: nat) returns (legal: bool)
      requires b < |blocks| && i < |blocks[b]|
      ensures legal <==> OnTarget(blocks[b], i)
      ensures legal <==> Legal(blocks[b], i)
    {
      var mi := blocks[b][i];
      match mi {
        case Arith(op, _, x, y) =>
          match op {
            case MOD => legal := false;
            case MODU => legal := false;
            case SUB => legal := !x.Imm?;
            case MUL => legal := !y.Imm?;
            case DIV => legal := !y.Imm?;
            case DIVU => legal := !y.Imm?;
            case _ => legal := true;
          }
        case Store(_, src) => legal := !src.Imm?;
        case Zext(_, _, _) => legal := i == 0 || !blocks[b][i - 1].Load?;
        case GlobalAddress(_, _) => legal := false;
        case _ => legal := true;
      }
    }

    /** Rewrites an instruction that is not legal. */
    method Expand(b: nat, i: nat)
      requires b < |blocks| && i < |blocks[b]| && AllFresh() && WellShaped(blocks[b][i]) && !Legal(blocks[b], i)
      modifies this`blocks, this`nextVReg
      ensures var code, mi := old(blocks[b]), old(blocks[b][i]);
              if NeedsExpansion(mi) then
                && blocks == old(blocks)[b := Splice(code, i, Expansion(mi, old(Unused())))]
                && Unused() == old(Unused()) + FreshCount(mi)
              else
                && mi.Zext? && 0 < i && code[i - 1].Load?
                && blocks == old(blocks)[b := Merged(code, i)] && Unused() == old(Unused())
    {
      hide AllBelow;
      match blocks[b][i] {
        case Arith(op, _, _, _) =>
          if op == MOD || op == MODU {
            ExpandMOD(b, i, op == MODU);
          } else {
            ExpandArithmeticInstWithImm(b, i, if op == SUB then 1 else 2);
          }
        case Store(_, _) => ExpandSTORE(b, i);
        case GlobalAddress(_, _) => ExpandGLOBAL_ADDRESS(b, i);
        case Zext(_, _, _) => ExpandZEXT(b, i);
      }
    }

    /** One block: the walk ends, then every instruction is legal, and unless a
        zero extension was merged into the wrong load, the block means what it
        meant. */
    method LegalizeBlock(b: nat, ghost e: Setting)
      requires b < |blocks| && AllFresh() && AllWellShaped(blocks[b])
      modifies this`blocks, this`nextVReg
      ensures AllFresh() && old(Unused()) <= Unused()
      ensures |blocks| == old(|blocks|) && blocks == old(blocks)[b := blocks[b]]
      ensures forall k :: 0 <= k < |blocks[b]| ==> OnTarget(blocks[b], k)
      ensures Mergeable(old(blocks[b])) ==>
                Preserves(e, old(blocks[b]), blocks[b], old(Unused()), GivenUp(old(blocks[b])))
    {
      hide Walking, AllBelow, TotalWeight, Preserves, Legal, ZextsFit;
      ghost var original, n := blocks[b], Unused();
      ghost var given := GivenUp(original);
      WalkStarts(e, original, n);
      var i := 0;
      while i < |blocks[b]|
        invariant AllFresh() && n <= Unused() && |blocks| == old(|blocks|) && blocks == old(blocks)[b := blocks[b]]
        invariant i <= |blocks[b]| && Walking(e, original, blocks[b], i, n, given)
        decreases TotalWeight(blocks[b][i..])
      {
        ghost var code := blocks[b];
        WalkingShape(e, original, code, i, n, given);
        BlockBelow(params, blocks, b, Unused());
        var legal := Check(b, i);
        if legal {
          PassKeeps(e, original, code, i, n, given);
          i := i + 1;
        } else {
          ghost var before, unused := blocks, Unused();
          Expand(b, i);
          if NeedsExpansion(code[i]) {
            ExpandKeeps(e, original, code, i, n, given, unused);
          } else {
            MergeKeeps(e, original, code, i, n, given, unused);
          }
          StaysBelow(params, before, b, blocks[b], unused, Unused());
          WalkingShape(e, original, blocks[b], i, n, given);
        }
      }
      WalkEnds(e, original, blocks[b], n, given);
    }

    /** All blocks of a function. */
    method Run(ghost e: Setting)
      requires AllFresh() && forall b :: 0 <= b < |blocks| ==> AllWellShaped(blocks[b])
      modifies this`blocks, this`nextVReg
      ensures AllFresh() && |blocks| == old(|blocks|)
      ensures forall b, k :: 0 <= b < |blocks| && 0 <= k < |blocks[b]| ==> OnTarget(blocks[b], k)
      ensures forall b :: 0 <= b < |blocks| && Mergeable(old(blocks)[b]) ==>
                Preserves(e, old(blocks)[b], blocks[b], old(Unused()), GivenUp(old(blocks)[b]))
    {
      hide Mergeable, AllBelow, Preserves, Legal, OnTarget, AllWellShaped;
      ghost var n := Unused();
      for b := 0 to |blocks|
        invariant AllFresh() && |blocks| == old(|blocks|) && n <= Unused()
        invariant forall c, k :: 0 <= c < b && 0 <= k < |blocks[c]| ==> OnTarget(blocks[c], k)
        invariant forall c :: 0 <= c < b && Mergeable(old(blocks)[c]) ==>
                    Preserves(e, old(blocks)[c], blocks[c], n, GivenUp(old(blocks)[c]))
        invariant forall c :: b <= c < |blocks| ==> blocks[c] == old(blocks)[c]
      {
        ghost var counter := Unused();
        LegalizeBlock(b, e);
        if Mergeable(old(blocks)[b]) {
          PreservesLess(e, old(blocks)[b], blocks[b], n, counter, GivenUp(old(blocks)[b]));
        }
      }
    }
  }

  lemma PreservesLess(e: Setting, original: seq<MIR>, code: seq<MIR>, n: nat, n': nat, given: set<nat>)
    requires Preserves(e, original, code, n', given) && n <= n'
    ensures Preserves(e, original, code, n, given)
  {
    hide MachineIR.Run;
  }

  lemma WalkingShape(e: Setting, original: seq<MIR>, code: seq<MIR>, i: nat, n: nat, given: set<nat>)
    requires Walking(e, original, code, i, n, given)
    ensures i <= |code| && AllWellShaped(code)
  {
    hide Preserves, ZextsFit;
  }

  lemma WalkEnds(e: Setting, original: seq<MIR>, code: seq<MIR>, n: nat, given: set<nat>)
    requires Walking(e, original, code, |code|, n, given)
    ensures ZextsFit(original, given) ==> Preserves(e, original, code, n, given)
    ensures forall k :: 0 <= k < |code| ==> OnTarget(code, k)
  {
    hide Preserves, ZextsFit;
    forall k | 0 <= k < |code|
      ensures OnTarget(code, k)
    {
      LegalIsOnTarget(code, k);
    }
  }

  lemma BlockBelow(params: seq<nat>, blocks: seq<seq<MIR>>, b: nat, n: nat)
    requires AllBelow(params, blocks, n) && b < |blocks|
    ensures CodeBelow(blocks[b], n)
  {
  }

  lemma StaysBelow(params: seq<nat>, blocks: seq<seq<MIR>>, b: nat, code: seq<MIR>, n: nat, n': nat)
    requires AllBelow(params, blocks, n) && b < |blocks| && CodeBelow(code, n') && n <= n'
    ensures AllBelow(params, blocks[b := code], n')
  {
    hide Below;
    forall c | 0 <= c < |blocks| && c != b
      ensures CodeBelow(blocks[c], n')
    {
      forall k | 0 <= k < |blocks[c]|
        ensures Below(blocks[c][k], n')
      {
        BelowLater(blocks[c][k], n, n');
      }
    }
  }

  lemma ReplacedBelow(params: seq<nat>, blocks: seq<seq<MIR>>, b: nat, i: nat, mi: MIR, n: nat)
    requires AllBelow(params, blocks, n) && b < |blocks| && i < |blocks[b]|
    requires mi.Arith? && blocks[b][i].Arith? && mi.dst == n && mi.a == blocks[b][i].a && mi.b == blocks[b][i].b
    ensures AllBelow(params, blocks[b := blocks[b][i := mi]], n + 1)
  {
    var code := blocks[b][i := mi];
    forall k | 0 <= k < |code|
      ensures Below(code[k], n + 1)
    {
      assert Below(blocks[b][k], n);
      BelowLater(blocks[b][k], n, n + 1);
      if k == i {
        assert Reads(mi) == Reads(blocks[b][i]);
      }
    }
    StaysBelow(params, blocks, b, code, n, n + 1);
  }

  lemma SpliceOne(code: seq<MIR>, i: nat, x: seq<MIR>)
    requires i < |code| && |x| == 1
    ensures code[i := x[0]] == Splice(code, i, x)
  {
  }

  lemma SpliceTwo(code: seq<MIR>, i: nat, x: seq<MIR>)
    requires i < |code| && |x| == 2
    ensures var c := code[i := x[1]]; c[..i] + [x[0]] + c[i..] == Splice(code, i, x)
    ensures var d := code[i := x[0]]; d[..i + 1] + [x[1]] + d[i + 1..] == Splice(code, i, x)
  {
  }

  lemma SpliceThree(code: seq<MIR>, i: nat, x: seq<MIR>)
    requires i < |code| && |x| == 3
    ensures var c := code[i := x[0]];
            var d := c[..i + 1] + [x[1]] + c[i + 1..];
            d[..i + 2] + [x[2]] + d[i + 2..] == Splice(code, i, x)
  {
  }

  /** The register handed out is then the unused one. */
  lemma ReachFresh(params: seq<nat>, blocks: seq<seq<MIR>>, n: nat)
    requires AllBelow(params, blocks, FirstFree(params, n))
    ensures Reach(n, params + BlocksIds(blocks)) == FirstFree(params, n)
  {
    var ids := params + BlocksIds(blocks);
    BlocksIdsBelow(blocks, FirstFree(params, n));
    forall k | 0 <= k < |ids|
      ensures ids[k] < FirstFree(params, n)
    {
    }
    ReachAtMost(n, ids);
  }

  lemma FirstFreeLater(params: seq<nat>, blocks: seq<seq<MIR>>, n: nat, n': nat)
    requires AllBelow(params, blocks, n) && n <= n'
    ensures FirstFree(params, n') == n'
  {
  }

  lemma ReachNothing(n: nat)
    ensures Reach(n, []) == n
  {
  }
}
