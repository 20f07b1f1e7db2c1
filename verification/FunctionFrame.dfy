/** The frame of a generated function has a place for every slot its code
    names. */
module FunctionFrame {
  import opened Words
  import opened Source
  import opened IR
  import opened Lowering
  import opened Functions
  import opened Factory
  import opened Slots
  import opened StmtCodegen
  import opened FrameLayout

  lemma AllocsOfSnoc(instrs: seq<Instr>, i: Instr)
    ensures AllocsOf(instrs + [i]) == AllocsOf(instrs) + if i.StackAlloc? then [i.id] else []
  {
    CodeAppend(instrs, [i]);
    assert [i][1..] == [];
  }

  /** Every stack allocation of the entry block becomes a slot. */
  method FrameOf(entry: seq<Instr>, sizes: map<nat, nat>) returns (frame: StackFrame)
    requires forall i, j :: 0 <= i < j < |AllocsOf(entry)| ==> AllocsOf(entry)[i] < AllocsOf(entry)[j]
    requires forall id :: id in AllocsOf(entry) ==> id in sizes
    ensures fresh(frame) && frame.Valid() && frame.objectsSize == End(frame.slots)
    ensures forall id :: id in AllocsOf(entry) ==> HasSlot(frame.slots, id)
  {
    hide AllocsOf, End, StackFrame.Valid;
    var ids: seq<nat> := [];
    NoAllocs([]);
    for k := 0 to |entry|
      invariant ids == AllocsOf(entry[..k])
    {
      assert entry[..k + 1] == entry[..k] + [entry[k]];
      AllocsOfSnoc(entry[..k], entry[k]);
      if entry[k].StackAlloc? {
        ids := ids + [entry[k].id];
      }
    }
    assert entry[..|entry|] == entry;
    frame := AllocateFrame(ids, sizes);
    forall id | id in ids
      ensures HasSlot(frame.slots, id)
    {
      var k :| 0 <= k < |ids| && ids[k] == id;
      assert frame.slots[k].id == id;
    }
  }

  /** A function is generated and its frame laid out. */
  method LayOutFunction(name: string, f: Function, sizes: map<nat, nat>) returns (IRF: IRFactory, frame: StackFrame)
    requires Generates(f.body, false, false) && forall id :: id in FunctionAllocs(f) ==> id in sizes
    ensures IRF.Valid() && IRF.st.listing == LowerFunction(f)
    ensures frame.Valid() && frame.objectsSize == End(frame.slots)
    ensures FunctionResolves(f) ==>
              forall i, slot :: i in LowerFunction(f) && Names(i, slot) ==> HasSlot(frame.slots, slot)
  {
    hide IRFactory.Valid, Generates, FunctionResolves, Names, LowerFunction, FunctionAllocs, AllocsOf, HasSlot, End,
      StackFrame.Valid;
    IRF := GenerateFunction(name, f);
    var entry := IRF.EntryInstrs();
    frame := FrameOf(entry, sizes);
  }
}
