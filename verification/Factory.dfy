/** The state the code generator works on: the blocks of the current function,
    the id counter, the label table, the symbol table and the target stacks. */
module Factory {
  import opened Words
  import opened Source
  import opened IR
  import opened Lowering
  import opened ExprCorrectness
  import opened Labels

  datatype BasicBlock = BasicBlock(bb: nat, name: string, instrs: seq<Instr>)

  // ---------------------------------------------------------------------
  // Listings
  // ---------------------------------------------------------------------

  /** The instructions that are translated further; stack allocations only
      reserve slots. */
  function Code(instrs: seq<Instr>): seq<Instr> {
    if instrs == [] then []
    else (if instrs[0].StackAlloc? then [] else [instrs[0]]) + Code(instrs[1..])
  }

  function AllocsOf(instrs: seq<Instr>): seq<nat> {
    if instrs == [] then []
    else (if instrs[0].StackAlloc? then [instrs[0].id] else []) + AllocsOf(instrs[1..])
  }

  /** The blocks in insertion order, each behind its label. */
  function ListingOf(blocks: seq<BasicBlock>): seq<Instr> {
    if blocks == [] then []
    else [Label(blocks[0].bb)] + Code(blocks[0].instrs) + ListingOf(blocks[1..])
  }

  lemma {:induction false} CodeAppend(a: seq<Instr>, b: seq<Instr>)
    ensures Code(a + b) == Code(a) + Code(b) && AllocsOf(a + b) == AllocsOf(a) + AllocsOf(b)
  {
    if a == [] {
      assert a + b == b;
    } else {
      assert (a + b)[1..] == a[1..] + b;
      CodeAppend(a[1..], b);
      Regroup(if a[0].StackAlloc? then [] else [a[0]], Code(a[1..]), Code(b));
      Regroup(if a[0].StackAlloc? then [a[0].id] else [], AllocsOf(a[1..]), AllocsOf(b));
    }
  }

  lemma {:induction false} ListingAppend(a: seq<BasicBlock>, b: seq<BasicBlock>)
    ensures ListingOf(a + b) == ListingOf(a) + ListingOf(b)
  {
    if a == [] {
      assert a + b == b;
    } else {
      assert (a + b)[1..] == a[1..] + b;
      ListingAppend(a[1..], b);
    }
  }

  function WithInstr(blocks: seq<BasicBlock>, i: Instr): seq<BasicBlock>
    requires blocks != []
  {
    var n := |blocks| - 1;
    blocks[n := blocks[n].(instrs := blocks[n].instrs + [i])]
  }

  lemma ListingWithInstr(blocks: seq<BasicBlock>, i: Instr)
    requires blocks != [] && !i.StackAlloc?
    ensures ListingOf(WithInstr(blocks, i)) == ListingOf(blocks) + [i]
    ensures AllocsOf(WithInstr(blocks, i)[0].instrs) == AllocsOf(blocks[0].instrs)
  {
    var n := |blocks| - 1;
    var b := blocks[n];
    var b' := b.(instrs := b.instrs + [i]);
    assert blocks == blocks[..n] + [b] && WithInstr(blocks, i) == blocks[..n] + [b'];
    ListingAppend(blocks[..n], [b]);
    ListingAppend(blocks[..n], [b']);
    CodeAppend(b.instrs, [i]);
  }

  /** Stack allocations go behind those already at the front of the block. */
  function WithAlloc(instrs: seq<Instr>, id: nat, at: nat): seq<Instr>
    requires at <= |instrs|
  {
    instrs[..at] + [StackAlloc(id)] + instrs[at..]
  }

  predicate AllocsFirst(instrs: seq<Instr>, at: nat) {
    && at <= |instrs|
    && (forall i :: 0 <= i < at ==> instrs[i].StackAlloc?)
    && (forall i :: at <= i < |instrs| ==> !instrs[i].StackAlloc?)
  }

  lemma {:induction false} NoAllocs(instrs: seq<Instr>)
    requires forall i :: 0 <= i < |instrs| ==> !instrs[i].StackAlloc?
    ensures AllocsOf(instrs) == [] && Code(instrs) == instrs
  {
    if instrs != [] { NoAllocs(instrs[1..]); }
  }

  lemma AllocLast(instrs: seq<Instr>, id: nat, at: nat)
    requires AllocsFirst(instrs, at)
    ensures var r := WithAlloc(instrs, id, at);
            Code(r) == Code(instrs) && AllocsOf(r) == AllocsOf(instrs) + [id] && AllocsFirst(r, at + 1)
  {
    AllocCode(instrs, id, at);
    var r := WithAlloc(instrs, id, at);
    assert forall i :: 0 <= i < |r| ==>
      r[i] == if i < at then instrs[i] else if i == at then StackAlloc(id) else instrs[i - 1];
  }

  lemma ListingWithAlloc(blocks: seq<BasicBlock>, id: nat, at: nat)
    requires blocks != [] && AllocsFirst(blocks[0].instrs, at)
    ensures ListingOf(blocks[0 := blocks[0].(instrs := WithAlloc(blocks[0].instrs, id, at))]) == ListingOf(blocks)
  {
    var instrs := blocks[0].instrs;
    AllocCode(instrs, id, at);
    assert blocks[0 := blocks[0].(instrs := WithAlloc(instrs, id, at))][1..] == blocks[1..];
  }

  lemma AllocCode(instrs: seq<Instr>, id: nat, at: nat)
    requires AllocsFirst(instrs, at)
    ensures var r := WithAlloc(instrs, id, at);
            Code(r) == Code(instrs) && AllocsOf(r) == AllocsOf(instrs) + [id]
  {
    hide Code, AllocsOf;
    var a, x, b := instrs[..at], [StackAlloc(id)], instrs[at..];
    assert instrs == a + b;
    CodeAppend(a, b);
    CodeAppend(a + x, b);
    CodeAppend(a, x);
    NoAllocs(b);
    CodeOfAlloc(id);
    assert Code(a) + [] == Code(a);
    assert AllocsOf(a) + [] == AllocsOf(a);
    assert AllocsOf(a) + [id] + [] == AllocsOf(a) + [id];
  }

  lemma CodeOfAlloc(id: nat)
    ensures Code([StackAlloc(id)]) == [] && AllocsOf([StackAlloc(id)]) == [id]
  {
    assert [StackAlloc(id)][1..] == [];
  }

  /** A scan over stack allocations stops where they end. */
  lemma ScanStops(instrs: seq<Instr>, at: nat, i: nat)
    requires AllocsFirst(instrs, at) && i <= |instrs| && forall j :: 0 <= j < i ==> instrs[j].StackAlloc?
    requires i < |instrs| ==> !instrs[i].StackAlloc?
    ensures i == at
  {
    var allocs := set j: nat | j < |instrs| && instrs[j].StackAlloc?;
    assert at in allocs ==> at < |instrs|;
    assert i in allocs <==> i < at;
    assert at in allocs <==> at < i;
  }

  function InvertBlocks(blocks: seq<BasicBlock>, id: nat): (r: seq<BasicBlock>)
    ensures |r| == |blocks|
  {
    if blocks == [] then []
    else [blocks[0].(instrs := InvertIn(blocks[0].instrs, id))] + InvertBlocks(blocks[1..], id)
  }

  lemma InvertAppend(a: seq<Instr>, b: seq<Instr>, id: nat)
    ensures InvertIn(a + b, id) == InvertIn(a, id) + InvertIn(b, id)
  {
  }

  lemma {:induction false} InvertCode(instrs: seq<Instr>, id: nat)
    ensures Code(InvertIn(instrs, id)) == InvertIn(Code(instrs), id)
    ensures AllocsOf(InvertIn(instrs, id)) == AllocsOf(instrs)
  {
    if instrs != [] {
      assert InvertIn(instrs, id)[1..] == InvertIn(instrs[1..], id);
      InvertCode(instrs[1..], id);
      var first := if instrs[0].StackAlloc? then [] else [instrs[0]];
      InvertAppend(first, Code(instrs[1..]), id);
    }
  }

  lemma {:induction false} InvertListing(blocks: seq<BasicBlock>, id: nat)
    ensures ListingOf(InvertBlocks(blocks, id)) == InvertIn(ListingOf(blocks), id)
    ensures forall i :: 0 <= i < |blocks| ==>
              var r := InvertBlocks(blocks, id)[i];
              r.bb == blocks[i].bb && r.name == blocks[i].name && r.instrs == InvertIn(blocks[i].instrs, id)
  {
    if blocks != [] {
      InvertListing(blocks[1..], id);
      InvertCode(blocks[0].instrs, id);
      var head := [Label(blocks[0].bb)] + Code(blocks[0].instrs);
      InvertAppend(head, ListingOf(blocks[1..]), id);
      InvertAppend([Label(blocks[0].bb)], Code(blocks[0].instrs), id);
      assert InvertIn([Label(blocks[0].bb)], id) == [Label(blocks[0].bb)];
    }
  }

  lemma PatchAppend(a: seq<Instr>, b: seq<Instr>, ret: nat)
    ensures Patch(a + b, ret) == Patch(a, ret) + Patch(b, ret)
  {
  }

  lemma {:induction false} PatchCode(instrs: seq<Instr>, ret: nat)
    ensures Code(Patch(instrs, ret)) == Patch(Code(instrs), ret)
    ensures AllocsOf(Patch(instrs, ret)) == AllocsOf(instrs)
  {
    if instrs != [] {
      assert Patch(instrs, ret)[1..] == Patch(instrs[1..], ret);
      PatchCode(instrs[1..], ret);
      var first := if instrs[0].StackAlloc? then [] else [instrs[0]];
      PatchAppend(first, Code(instrs[1..]), ret);
    }
  }

  /** What the patch loops leave of a block list. */
  ghost predicate Patched(blocks: seq<BasicBlock>, blocks': seq<BasicBlock>, ret: nat) {
    && |blocks'| == |blocks|
    && forall i :: 0 <= i < |blocks| ==> blocks'[i] == blocks[i].(instrs := Patch(blocks[i].instrs, ret))
  }

  lemma {:induction false} PatchListing(blocks: seq<BasicBlock>, blocks': seq<BasicBlock>, ret: nat)
    requires Patched(blocks, blocks', ret)
    ensures ListingOf(blocks') == Patch(ListingOf(blocks), ret)
  {
    if blocks != [] {
      PatchListing(blocks[1..], blocks'[1..], ret);
      PatchCode(blocks[0].instrs, ret);
      var head := [Label(blocks[0].bb)] + Code(blocks[0].instrs);
      PatchAppend(head, ListingOf(blocks[1..]), ret);
      PatchAppend([Label(blocks[0].bb)], Code(blocks[0].instrs), ret);
      assert Patch([Label(blocks[0].bb)], ret) == [Label(blocks[0].bb)];
    }
  }

  // ---------------------------------------------------------------------
  // The factory
  // ---------------------------------------------------------------------

  /** What the code generator has produced so far. */
  datatype State = State(listing: seq<Instr>, allocs: seq<nat>, id: nat, bb: nat, sym: SymbolTable, ctx: Context)

  function After(s: State, f: Frag): State {
    s.(listing := s.listing + f.code, allocs := s.allocs + f.allocs, id := f.id, bb := f.bb)
  }

  function AfterStmt(s: State, f: StmtFrag): State {
    s.(listing := s.listing + f.code, allocs := s.allocs + f.allocs, id := f.id, bb := f.bb, sym := f.sym)
  }

  /** Stack allocations were numbered in the order they stand in. */
  ghost predicate AscendingBelow(allocs: seq<nat>, id: nat) {
    && (forall i :: 0 <= i < |allocs| ==> allocs[i] < id)
    && (forall i, j :: 0 <= i < j < |allocs| ==> allocs[i] < allocs[j])
  }

  function Lookup(t: map<string, nat>, name: string): nat {
    if name in t then t[name] else 0
  }

  /** The base names of the blocks the code generator makes. */
  const BASES: set<string> := {
    "if_true", "if_else", "if_end", "switch_case", "switch_default", "switch_end",
    "loop_header", "loop_body", "loop_increment", "loop_end", "not_true", "not_final",
    "test_RHS", "true", "false", "final", "end"}

  /** One of them, or the base name of the function's return block. */
  predicate IsBase(base: string, name: string) {
    base in BASES || base == name + "_end"
  }

  /** No base ends in a digit, and none makes the name of the entry block. */
  lemma BaseIsFresh(base: string, name: string, n: nat)
    requires IsBase(base, name)
    ensures !EndsInDigit(base) && base + Decimal(n) != "entry_" + name
  {
    hide Decimal;
    if base in BASES {
      WordIsFresh(base, name, n);
    } else {
      assert base[|base| - 1] == "_end"[3] == 'd';
      ReturnIsFresh(name, n);
    }
  }

  lemma WordIsFresh(base: string, name: string, n: nat)
    requires base in BASES
    ensures !EndsInDigit(base) && base + Decimal(n) != "entry_" + name
  {
    hide Decimal;
    assert base[0] != 'e' || base[2] == 'd';
    assert (base + Decimal(n))[0] == base[0] && (base + Decimal(n))[2] == base[2];
    assert ("entry_" + name)[0] == 'e' && ("entry_" + name)[2] == 't';
  }

  /** The two words do not have the same letters. */
  lemma ReturnIsFresh(name: string, n: nat)
    ensures name + "_end" + Decimal(n) != "entry_" + name
  {
    var a, b := name + "_end" + Decimal(n), "entry_" + name;
    assert multiset(a)['d'] == multiset(name)['d'] + multiset("_end")['d'] + multiset(Decimal(n))['d'];
    assert multiset(b)['d'] == multiset("entry_")['d'] + multiset(name)['d'];
    assert multiset("_end")['d'] == 1 by { assert "_end" == ['_', 'e', 'n', 'd']; }
    assert multiset("entry_")['d'] == 0 by { assert "entry_" == ['e', 'n', 't', 'r', 'y', '_']; }
  }

  /** Every label was made from a base name and the number of its earlier
      uses, and none is the entry block's; labels stand before blocks only. */
  ghost predicate LabelsOk(blocks: seq<BasicBlock>, bases: seq<string>, table: map<string, nat>) {
    && |blocks| == |bases| + 1 && NoLabels(blocks)
    && (forall i :: 0 <= i < |bases| ==>
          blocks[i + 1].name == LabelAt(bases, i) && !EndsInDigit(bases[i]))
    && (forall i :: 1 <= i < |blocks| ==> blocks[i].name != blocks[0].name)
    && (forall b :: Lookup(table, b) == Uses(bases, b))
  }

  ghost predicate NoLabels(blocks: seq<BasicBlock>) {
    forall k, i :: 0 <= k < |blocks| && 0 <= i < |blocks[k].instrs| ==> !blocks[k].instrs[i].Label?
  }

  lemma LabelsKeep(blocks: seq<BasicBlock>, blocks': seq<BasicBlock>, bases: seq<string>, table: map<string, nat>)
    requires LabelsOk(blocks, bases, table) && |blocks'| == |blocks|
    requires NoLabels(blocks') && forall i :: 0 <= i < |blocks| ==> blocks'[i].name == blocks[i].name
    ensures LabelsOk(blocks', bases, table)
  {
  }

  lemma AllocIsNoLabel(blocks: seq<BasicBlock>, id: nat, at: nat)
    requires blocks != [] && at <= |blocks[0].instrs| && NoLabels(blocks)
    ensures NoLabels(blocks[0 := blocks[0].(instrs := WithAlloc(blocks[0].instrs, id, at))])
  {
    forall k, i | 0 <= k < |blocks| && 0 <= i < |blocks[k].instrs|
      ensures !blocks[k].instrs[i].Label?
    {
    }
  }

  lemma EmptyIsNoLabel(blocks: seq<BasicBlock>, b: BasicBlock)
    requires NoLabels(blocks) && b.instrs == []
    ensures NoLabels(blocks + [b])
  {
  }

  lemma InvertMakesNoLabel(blocks: seq<BasicBlock>, id: nat)
    requires NoLabels(blocks)
    ensures NoLabels(InvertBlocks(blocks, id))
  {
    var r := InvertBlocks(blocks, id);
    InvertListing(blocks, id);
    forall k, i | 0 <= k < |r| && 0 <= i < |r[k].instrs|
      ensures !r[k].instrs[i].Label?
    {
      assert r[k].instrs == InvertIn(blocks[k].instrs, id);
      assert !blocks[k].instrs[i].Label?;
    }
  }

  lemma PatchMakesNoLabel(blocks: seq<BasicBlock>, blocks': seq<BasicBlock>, ret: nat)
    requires NoLabels(blocks) && Patched(blocks, blocks', ret)
    ensures NoLabels(blocks')
  {
    forall k, i | 0 <= k < |blocks| && 0 <= i < |blocks'[k].instrs|
      ensures !blocks'[k].instrs[i].Label?
    {
      assert blocks'[k] == blocks[k].(instrs := Patch(blocks[k].instrs, ret));
      assert !blocks[k].instrs[i].Label?;
    }
  }

  /** How many of the blocks are block bb. */
  function Inserted(blocks: seq<BasicBlock>, bb: nat): nat {
    if blocks == [] then 0 else (if blocks[0].bb == bb then 1 else 0) + Inserted(blocks[1..], bb)
  }

  lemma {:induction false} CodeHasNoLabel(instrs: seq<Instr>, bb: nat)
    requires forall i :: 0 <= i < |instrs| ==> !instrs[i].Label?
    ensures Label(bb) !in Code(instrs)
  {
    if instrs != [] { CodeHasNoLabel(instrs[1..], bb); }
  }

  lemma {:induction false} ListingCount(blocks: seq<BasicBlock>, bb: nat)
    requires NoLabels(blocks)
    ensures Count(ListingOf(blocks), bb) == Inserted(blocks, bb)
  {
    if blocks != [] {
      var code := Code(blocks[0].instrs);
      forall k, i | 0 <= k < |blocks[1..]| && 0 <= i < |blocks[1..][k].instrs|
        ensures !blocks[1..][k].instrs[i].Label?
      {
        assert !blocks[k + 1].instrs[i].Label?;
      }
      ListingCount(blocks[1..], bb);
      CodeHasNoLabel(blocks[0].instrs, bb);
      assert multiset([Label(blocks[0].bb)] + code + ListingOf(blocks[1..]))
          == multiset([Label(blocks[0].bb)]) + multiset(code) + multiset(ListingOf(blocks[1..]));
    }
  }

  lemma {:induction false} InsertedNowhere(blocks: seq<BasicBlock>, bb: nat)
    requires Inserted(blocks, bb) == 0
    ensures forall i :: 0 <= i < |blocks| ==> blocks[i].bb != bb
  {
    if blocks != [] {
      InsertedNowhere(blocks[1..], bb);
      assert blocks == [blocks[0]] + blocks[1..];
    }
  }

  lemma {:induction false} InsertedOnce(blocks: seq<BasicBlock>, bb: nat) returns (k: nat)
    requires Inserted(blocks, bb) == 1
    ensures k < |blocks| && blocks[k].bb == bb && forall i :: 0 <= i < |blocks| && blocks[i].bb == bb ==> i == k
  {
    assert blocks == [blocks[0]] + blocks[1..];
    if blocks[0].bb == bb {
      InsertedNowhere(blocks[1..], bb);
      k := 0;
    } else {
      var j := InsertedOnce(blocks[1..], bb);
      k := j + 1;
      assert forall i :: 1 <= i < |blocks| ==> blocks[i] == blocks[1..][i - 1];
    }
  }

  lemma HasNoLabels(blocks: seq<BasicBlock>, bases: seq<string>, table: map<string, nat>)
    requires LabelsOk(blocks, bases, table)
    ensures NoLabels(blocks)
  {
  }

  lemma LabelsStay(blocks: seq<BasicBlock>, i: Instr, bases: seq<string>, table: map<string, nat>)
    requires LabelsOk(blocks, bases, table) && !i.Label?
    ensures NoLabels(WithInstr(blocks, i))
  {
  }

  lemma NamesDiffer(blocks: seq<BasicBlock>, bases: seq<string>, table: map<string, nat>, i: nat, j: nat)
    requires LabelsOk(blocks, bases, table) && i < j < |blocks|
    ensures blocks[i].name != blocks[j].name
  {
    hide LabelAt, EndsInDigit, NoLabels;
    if i == 0 {
      return;
    }
    assert blocks[i - 1 + 1].name == LabelAt(bases, i - 1) && blocks[j - 1 + 1].name == LabelAt(bases, j - 1);
    LabelsDiffer(bases, i - 1, j - 1);
  }

  lemma LabelsExtend(blocks: seq<BasicBlock>, bases: seq<string>, table: map<string, nat>, base: string, b: BasicBlock)
    requires LabelsOk(blocks, bases, table) && !EndsInDigit(base) && b.name == base + Decimal(Lookup(table, base))
    requires b.name != blocks[0].name && b.instrs == []
    ensures LabelsOk(blocks + [b], bases + [base], table[base := Lookup(table, base) + 1])
  {
    hide Decimal, Uses;
    assert NoLabels(blocks + [b]) by { EmptyIsNoLabel(blocks, b); }
    var n := |bases|;
    var table' := table[base := Lookup(table, base) + 1];
    forall i | 0 <= i <= n
      ensures (blocks + [b])[i + 1].name == LabelAt(bases + [base], i) && !EndsInDigit((bases + [base])[i])
    {
      if i < n {
        assert (bases + [base])[..i] == bases[..i];
        assert blocks[i + 1].name == LabelAt(bases, i);
      } else {
        assert (bases + [base])[..n] == bases;
        assert Lookup(table, base) == Uses(bases, base);
      }
    }
    forall x
      ensures Lookup(table', x) == Uses(bases + [base], x)
    {
      UsesAppend(bases, base, x);
      assert Lookup(table, x) == Uses(bases, x);
    }
  }

  lemma UsesAppend(bases: seq<string>, base: string, x: string)
    ensures Uses(bases + [base], x) == Uses(bases, x) + (if x == base then 1 else 0)
  {
  }

  class IRFactory {
    const name: string
    var blocks: seq<BasicBlock>
    var ID: nat
    var created: nat
    var labelTable: map<string, nat>
    var symbolTable: SymbolTable
    var breakTargets: seq<nat>
    var incrementTargets: seq<nat>
    var isVoid: bool
    var returnValue: Option<nat>
    ghost var bases: seq<string>
    ghost var st: State

    ghost predicate Valid()
      reads this
    {
      && blocks != [] && blocks[0].name == "entry_" + name
      && (exists at: nat :: AllocsFirst(blocks[0].instrs, at))
      && st == State(ListingOf(blocks), AllocsOf(blocks[0].instrs), ID, created, symbolTable,
                     Context(breakTargets, incrementTargets, isVoid, returnValue))
      && ComparesIn(st.listing, 0, st.id) && AscendingBelow(st.allocs, st.id)
      && LabelsOk(blocks, bases, labelTable)
    }

    /** A block that the listing contains once can be found by its number and
        by its name. */
    lemma BlockOf(bb: nat) returns (k: nat)
      requires Valid() && Count(st.listing, bb) == 1
      ensures k < |blocks| && blocks[k].bb == bb
      ensures forall i :: 0 <= i < |blocks| && (blocks[i].bb == bb || blocks[i].name == blocks[k].name) ==> i == k
    {
      hide LabelsOk, ListingOf, Count, Inserted, AllocsOf;
      HasNoLabels(blocks, bases, labelTable);
      ListingCount(blocks, bb);
      k := InsertedOnce(blocks, bb);
      forall i | 0 <= i < |blocks| && blocks[i].name == blocks[k].name
        ensures i == k
      {
        if i < k {
          NamesDiffer(blocks, bases, labelTable, i, k);
        } else if k < i {
          NamesDiffer(blocks, bases, labelTable, k, i);
        }
      }
    }

    lemma ComparesNumbered()
      requires Valid()
      ensures ComparesIn(st.listing, 0, st.id)
    {
    }

    constructor (name: string, void: bool)
      ensures Valid() && this.name == name
      ensures st == State([Label(0)], [], 0, 1, map[], Context([], [], void, None))
    {
      this.name := name;
      blocks := [BasicBlock(0, "entry_" + name, [])];
      ID, created := 0, 1;
      labelTable, symbolTable := map[], map[];
      breakTargets, incrementTargets := [], [];
      isVoid, returnValue := void, None;
      bases, st := [], State([Label(0)], [], 0, 1, map[], Context([], [], void, None));
      new;
      assert AllocsFirst(blocks[0].instrs, 0);
      assert ListingOf(blocks) == [Label(0)] by { assert blocks[1..] == []; }
    }

    method EntryInstrs() returns (instrs: seq<Instr>)
      requires Valid()
      ensures AllocsOf(instrs) == st.allocs && AscendingBelow(st.allocs, st.id)
    {
      instrs := blocks[0].instrs;
    }

    /** Appends to the current block. */
    method Insert(i: Instr)
      requires Valid() && !i.StackAlloc? && !i.Label? && (i.Cmp? ==> i.id < st.id)
      modifies this`blocks, this`st
      ensures Valid() && st == old(st).(listing := old(st).listing + [i])
    {
      hide LabelsOk, ListingOf, AllocsOf;
      ListingWithInstr(blocks, i);
      ComparesAppend(ListingOf(blocks), [i], 0, ID);
      LabelsStay(blocks, i, bases, labelTable);
      LabelsKeep(blocks, WithInstr(blocks, i), bases, labelTable);
      ghost var at: nat :| AllocsFirst(blocks[0].instrs, at);
      blocks := WithInstr(blocks, i);
      st := st.(listing := st.listing + [i]);
      assert AllocsFirst(blocks[0].instrs, at);
    }

    /** Appends to the allocations at the front of the entry block. */
    method InsertSA(id: nat)
      requires Valid() && AscendingBelow(st.allocs, id) && id < st.id
      modifies this`blocks, this`st
      ensures Valid() && st == old(st).(allocs := old(st).allocs + [id])
    {
      var instrs := blocks[0].instrs;
      ghost var at: nat :| AllocsFirst(instrs, at);
      var i := 0;
      while i < |instrs| && instrs[i].StackAlloc?
        invariant i <= |instrs| && forall j :: 0 <= j < i ==> instrs[j].StackAlloc?
      {
        i := i + 1;
      }
      ScanStops(instrs, at, i);
      AllocLast(instrs, id, i);
      ListingWithAlloc(blocks, id, i);
      HasNoLabels(blocks, bases, labelTable);
      AllocIsNoLabel(blocks, id, i);
      hide LabelsOk, NoLabels, ListingOf, AllocsOf, AllocsFirst;
      LabelsKeep(blocks, blocks[0 := blocks[0].(instrs := WithAlloc(instrs, id, i))], bases, labelTable);
      blocks := blocks[0 := blocks[0].(instrs := WithAlloc(instrs, id, i))];
      st := st.(allocs := st.allocs + [id]);
      assert AllocsFirst(blocks[0].instrs, at + 1);
    }

    method NextID() returns (id: nat)
      requires Valid()
      modifies this`ID, this`st
      ensures Valid() && id == old(st).id && st == old(st).(id := id + 1) && AscendingBelow(st.allocs, id)
    {
      id := ID;
      ID := ID + 1;
      st := st.(id := ID);
    }

    method CreateSA() returns (id: nat)
      requires Valid()
      modifies this`blocks, this`ID, this`st
      ensures Valid() && id == old(st).id
      ensures st == old(st).(allocs := old(st).allocs + [id], id := id + 1)
    {
      id := NextID();
      InsertSA(id);
    }

    /** A block that exists but is not inserted yet. */
    method NewBlock() returns (bb: nat)
      requires Valid()
      modifies this`created, this`st
      ensures Valid() && bb == old(st).bb && st == old(st).(bb := bb + 1)
    {
      bb := created;
      created := created + 1;
      st := st.(bb := created);
    }

    /** The block becomes the current one, under a label no other block has. */
    method InsertBB(bb: nat, base: string)
      requires Valid() && IsBase(base, name)
      modifies this`blocks, this`labelTable, this`bases, this`st
      ensures Valid() && st == old(st).(listing := old(st).listing + [Label(bb)])
    {
      hide LabelsOk, Decimal, Uses, AllocsOf, IsBase;
      var number := Lookup(labelTable, base);
      var unique := base + Decimal(number);
      labelTable := labelTable[base := number + 1];
      var b := BasicBlock(bb, unique, []);
      ListingAppend(blocks, [b]);
      assert ListingOf([b]) == [Label(bb)] by { assert [b][1..] == []; }
      BaseIsFresh(base, name, number);
      LabelsExtend(blocks, bases, old(labelTable), base, b);
      blocks := blocks + [b];
      bases := bases + [base];
      st := st.(listing := st.listing + [Label(bb)]);
    }

    /** Later passes resolve a jump by searching for its target's name.  The
        search finds the block meant. */
    method ResolveName(name: string, ghost k: nat) returns (i: nat)
      requires Valid() && k < |blocks| && blocks[k].name == name
      ensures i == k
    {
      hide ListingOf, AllocsOf, ComparesIn, LabelsOk;
      i := 0;
      while blocks[i].name != name
        invariant i <= k
        decreases k - i
      {
        i := i + 1;
      }
      if i < k {
        NamesDiffer(blocks, bases, labelTable, i, k);
      }
    }

    /** Flips the relation of the compare with the given id, wherever it is. */
    method InvertRelation(id: nat)
      requires Valid()
      modifies this`blocks, this`st
      ensures Valid() && st == old(st).(listing := InvertIn(old(st).listing, id))
    {
      hide LabelsOk, ListingOf, AllocsOf, NoLabels;
      InvertListing(blocks, id);
      assert forall i :: 0 <= i < |st.listing| ==> InvertIn(st.listing, id)[i].Cmp? == st.listing[i].Cmp?;
      InvertCode(blocks[0].instrs, id);
      HasNoLabels(blocks, bases, labelTable);
      InvertMakesNoLabel(blocks, id);
      ghost var at: nat :| AllocsFirst(blocks[0].instrs, at);
      LabelsKeep(blocks, InvertBlocks(blocks, id), bases, labelTable);
      blocks := InvertBlocks(blocks, id);
      st := st.(listing := InvertIn(st.listing, id));
      assert AllocsFirst(blocks[0].instrs, at);
    }

    method CreateBin(op: BinOp, a: Operand, b: Operand) returns (r: Operand)
      requires Valid()
      modifies this`blocks, this`ID, this`st
      ensures Valid() && r == Reg(old(st).id)
      ensures st == old(st).(listing := old(st).listing + [Bin(r.id, op, a, b)], id := r.id + 1)
    {
      var id := NextID();
      Insert(Bin(id, op, a, b));
      r := Reg(id);
    }

    method CreateMOV(a: Operand) returns (r: Operand)
      requires Valid()
      modifies this`blocks, this`ID, this`st
      ensures Valid() && r == Reg(old(st).id)
      ensures st == old(st).(listing := old(st).listing + [Mov(r.id, a)], id := r.id + 1)
    {
      var id := NextID();
      Insert(Mov(id, a));
      r := Reg(id);
    }

    method CreateCMP(rel: CompRel, a: Operand, b: Operand) returns (r: Operand)
      requires Valid()
      modifies this`blocks, this`ID, this`st
      ensures Valid() && r == CmpResult(old(st).id)
      ensures st == old(st).(listing := old(st).listing + [Cmp(r.id, rel, a, b)], id := r.id + 1)
    {
      var id := NextID();
      Insert(Cmp(id, rel, a, b));
      r := CmpResult(id);
    }

    method CreateLD(slot: nat) returns (r: Operand)
      requires Valid()
      modifies this`blocks, this`ID, this`st
      ensures Valid() && r == Reg(old(st).id)
      ensures st == old(st).(listing := old(st).listing + [Load(r.id, slot)], id := r.id + 1)
    {
      var id := NextID();
      Insert(Load(id, slot));
      r := Reg(id);
    }

    method GetSymbolValue(x: string) returns (slot: nat)
      requires Valid()
      ensures slot == SlotOf(st.sym, x)
    {
      slot := SlotOf(symbolTable, x);
    }

    method AddToSymbolTable(x: string, id: nat)
      requires Valid()
      modifies this`symbolTable, this`st
      ensures Valid() && st == old(st).(sym := old(st).sym[x := id])
    {
      symbolTable := symbolTable[x := id];
      st := st.(sym := symbolTable);
    }

    method GetContext() returns (ctx: Context)
      requires Valid()
      ensures ctx == st.ctx
    {
      ctx := Context(breakTargets, incrementTargets, isVoid, returnValue);
    }

    method PushBreak(bb: nat)
      requires Valid()
      modifies this`breakTargets, this`st
      ensures Valid() && st == old(st).(ctx := WithBreak(old(st).ctx, bb))
    {
      breakTargets := breakTargets + [bb];
      st := st.(ctx := WithBreak(st.ctx, bb));
    }

    method PopBreak()
      requires Valid() && st.ctx.breaks != []
      modifies this`breakTargets, this`st
      ensures Valid() && st == old(st).(ctx := old(st).ctx.(breaks := old(st).ctx.breaks[..|old(st).ctx.breaks| - 1]))
    {
      breakTargets := breakTargets[..|breakTargets| - 1];
      st := st.(ctx := st.ctx.(breaks := breakTargets));
    }

    method PushIncrement(bb: nat)
      requires Valid()
      modifies this`incrementTargets, this`st
      ensures Valid() && st == old(st).(ctx := old(st).ctx.(increments := old(st).ctx.increments + [bb]))
    {
      incrementTargets := incrementTargets + [bb];
      st := st.(ctx := st.ctx.(increments := incrementTargets));
    }

    method PopIncrement()
      requires Valid() && st.ctx.increments != []
      modifies this`incrementTargets, this`st
      ensures Valid()
      ensures st == old(st).(ctx := old(st).ctx.(increments := old(st).ctx.increments[..|old(st).ctx.increments| - 1]))
    {
      incrementTargets := incrementTargets[..|incrementTargets| - 1];
      st := st.(ctx := st.ctx.(increments := incrementTargets));
    }

    method SetReturnValue(slot: nat)
      requires Valid()
      modifies this`returnValue, this`st
      ensures Valid() && st == old(st).(ctx := old(st).ctx.(merge := Some(slot)))
    {
      returnValue := Some(slot);
      st := st.(ctx := st.ctx.(merge := returnValue));
    }

    /** Gives every jump without a target the block ret. */
    method PatchJumps(ret: nat)
      requires Valid()
      modifies this`blocks, this`st
      ensures Valid() && st == old(st).(listing := Patch(old(st).listing, ret))
    {
      hide LabelsOk, ListingOf, AllocsOf, NoLabels;
      ghost var before := blocks;
      for i := 0 to |blocks|
        invariant |blocks| == |before| && st == old(st)
        invariant forall k :: 0 <= k < i ==> blocks[k] == before[k].(instrs := Patch(before[k].instrs, ret))
        invariant forall k :: i <= k < |blocks| ==> blocks[k] == before[k]
      {
        var instrs := PatchBlock(blocks[i].instrs, ret);
        blocks := blocks[i := blocks[i].(instrs := instrs)];
      }
      PatchListing(before, blocks, ret);
      HasNoLabels(before, bases, labelTable);
      PatchMakesNoLabel(before, blocks, ret);
      PatchCode(before[0].instrs, ret);
      assert forall i :: 0 <= i < |st.listing| ==> Patch(st.listing, ret)[i].Cmp? == st.listing[i].Cmp?;
      ghost var at: nat :| AllocsFirst(before[0].instrs, at);
      LabelsKeep(before, blocks, bases, labelTable);
      st := st.(listing := Patch(st.listing, ret));
      assert AllocsFirst(blocks[0].instrs, at);
    }

    static method PatchBlock(instrs: seq<Instr>, ret: nat) returns (r: seq<Instr>)
      ensures r == Patch(instrs, ret)
    {
      r := instrs;
      for i := 0 to |instrs|
        invariant |r| == |instrs|
        invariant forall k :: 0 <= k < i ==> r[k] == PatchInstr(instrs[k], ret)
        invariant forall k :: i <= k < |instrs| ==> r[k] == instrs[k]
      {
        if r[i].JumpToReturn? {
          r := r[i := Jump(ret)];
        }
      }
    }

    /** The test of a condition: a compare is inverted in place, any other
        value is compared with zero. */
    method BranchUnless(val: Operand, target: nat)
      requires Valid()
      modifies this`blocks, this`ID, this`st
      ensures Valid()
      ensures st == old(st).(listing := InvertTested(old(st).listing, val) + BranchIfZero(val, old(st).id, target),
                             id := IdAfterBranch(val, old(st).id))
    {
      hide Valid;
      if val.CmpResult? {
        InvertRelation(val.id);
        Insert(Branch(val, target));
      } else {
        var cmp := CreateCMP(EQ, val, Const(0));
        Insert(Branch(cmp, target));
        assert [Cmp(cmp.id, EQ, val, Const(0)), Branch(cmp, target)]
          == [Cmp(cmp.id, EQ, val, Const(0))] + [Branch(cmp, target)];
        assert st.listing == old(st).listing + [Cmp(cmp.id, EQ, val, Const(0)), Branch(cmp, target)];
      }
    }
  }

  function InvertTested(listing: seq<Instr>, val: Operand): seq<Instr> {
    if val.CmpResult? then InvertIn(listing, val.id) else listing
  }
}
