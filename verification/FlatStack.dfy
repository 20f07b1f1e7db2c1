/** After register allocation, operands that name a stack slot become the
    stack pointer and an offset.  Byte by byte, the flat memory then holds what
    the separate slots held. */
module FlatStack {
  import opened Words
  import opened FrameLayout

  datatype Operand = Reg(r: nat) | Imm(n: int) | StackAccess(slot: nat, offset: int) | Memory(base: nat, offset: int)

  /** ADDRESS takes the address of a slot, OFFSET adds a number to a number or
      an address.  OTHER defines its first operand from numbers; CONTROL defines
      nothing and may jump. */
  datatype Opcode =
    | LOAD(width: nat)
    | STORE(width: nat)
    | ADDRESS
    | OFFSET
    | OTHER(code: nat)
    | CONTROL(code: nat)
    | RET

  datatype Instr = Instr(op: Opcode, operands: seq<Operand>)

  /** The stack register of the target: x31, which is called sp. */
  const SP := 64

  // ---------------------------------------------------------------------
  // The rewrite
  // ---------------------------------------------------------------------

  predicate IsMemOperand(o: Operand) { o.StackAccess? || o.Memory? }

  /** The first operand from k on that accesses memory. */
  function FirstMem(operands: seq<Operand>, k: nat): (r: Option<nat>)
    requires k <= |operands|
    ensures r.Some? ==> k <= r.value < |operands| && IsMemOperand(operands[r.value])
    ensures r.Some? ==> forall j :: k <= j < r.value ==> !IsMemOperand(operands[j])
    ensures r.None? ==> forall j :: k <= j < |operands| ==> !IsMemOperand(operands[j])
    decreases |operands| - k
  {
    if k == |operands| then None
    else if IsMemOperand(operands[k]) then Some(k)
    else FirstMem(operands, k + 1)
  }

  function PositionOf(slots: seq<Slot>, id: nat): nat
    decreases |slots|
  {
    if slots == [] then 0
    else if slots[|slots| - 1].id == id then Position(slots, |slots| - 1)
    else PositionOf(slots[..|slots| - 1], id)
  }

  lemma {:induction false} PositionOfSlot(slots: seq<Slot>, k: nat)
    requires SortedById(slots) && k < |slots|
    ensures PositionOf(slots, slots[k].id) == Position(slots, k)
    decreases |slots|
  {
    var n := |slots| - 1;
    if k < n {
      PositionOfSlot(slots[..n], k);
      assert slots[..n][..k] == slots[..k];
    }
  }

  function RewriteAt(i: Instr, k: nat, slots: seq<Slot>): Instr
    requires k < |i.operands| && IsMemOperand(i.operands[k])
  {
    var o := i.operands[k];
    var rest := i.operands[..k] + i.operands[k + 1..];
    if o.StackAccess? then i.(operands := rest + [Reg(SP), Imm(PositionOf(slots, o.slot) + o.offset)])
    else i.(operands := rest + [Reg(o.base), Imm(o.offset)])
  }

  /** Only the first memory operand is rewritten. */
  function Rewrite(i: Instr, slots: seq<Slot>): Instr {
    match FirstMem(i.operands, 0)
    case None => i
    case Some(k) => RewriteAt(i, k, slots)
  }

  function Rewritten(code: seq<Instr>, slots: seq<Slot>): seq<Instr> {
    seq(|code|, p requires 0 <= p < |code| => Rewrite(code[p], slots))
  }

  ghost predicate SlotsKnown(code: seq<Instr>, slots: seq<Slot>) {
    forall p, k :: 0 <= p < |code| && 0 <= k < |code[p].operands| && code[p].operands[k].StackAccess? ==>
      HasSlot(slots, code[p].operands[k].slot)
  }

  lemma FirstMemIs(operands: seq<Operand>, k: nat)
    requires k <= |operands| && (forall j :: 0 <= j < k ==> !IsMemOperand(operands[j]))
    requires k < |operands| ==> IsMemOperand(operands[k])
    ensures FirstMem(operands, 0) == if k < |operands| then Some(k) else None
  {
  }

  /** Looks for a memory operand and rewrites it. */
  method LowerStackAccess(i: Instr, frame: StackFrame) returns (r: Instr)
    requires frame.Valid()
    requires forall k :: 0 <= k < |i.operands| && i.operands[k].StackAccess? ==>
             HasSlot(frame.slots, i.operands[k].slot)
    ensures r == Rewrite(i, frame.slots)
  {
    hide FirstMem, Position, PositionOf;
    r := i;
    var k := 0;
    while k < |i.operands| && !IsMemOperand(i.operands[k])
      invariant k <= |i.operands| && forall j :: 0 <= j < k ==> !IsMemOperand(i.operands[j])
    {
      k := k + 1;
    }
    FirstMemIs(i.operands, k);
    if k < |i.operands| {
      var o := i.operands[k];
      var rest := i.operands[..k] + i.operands[k + 1..];
      if o.StackAccess? {
        var position := frame.GetPosition(o.slot);
        ghost var j :| 0 <= j < |frame.slots| && frame.slots[j].id == o.slot && position == Position(frame.slots, j);
        PositionOfSlot(frame.slots, j);
        r := i.(operands := rest + [Reg(SP), Imm(position + o.offset)]);
      } else {
        r := i.(operands := rest + [Reg(o.base), Imm(o.offset)]);
      }
    }
  }

  /** The pass over all instructions, in place. */
  method LowerStackAccesses(code: array<Instr>, frame: StackFrame)
    requires frame.Valid() && SlotsKnown(code[..], frame.slots)
    modifies code
    ensures code[..] == Rewritten(old(code[..]), frame.slots)
  {
    hide Rewrite;
    for p := 0 to code.Length
      invariant forall q :: 0 <= q < p ==> code[q] == Rewrite(old(code[q]), frame.slots)
      invariant forall q :: p <= q < code.Length ==> code[q] == old(code[q])
    {
      assert code[p] == old(code[..])[p];
      code[p] := LowerStackAccess(code[p], frame);
    }
  }

  // ---------------------------------------------------------------------
  // Bytes
  // ---------------------------------------------------------------------

  function ByteOf(v: int, k: nat): int { (v / Pow2(8 * k)) % 256 }

  function FromBytes(bytes: seq<int>): int {
    if bytes == [] then 0 else bytes[0] + 256 * FromBytes(bytes[1..])
  }

  /** The bytes of v, written from address a on. */
  function PutBytes(m: map<int, int>, a: int, v: int, width: nat): map<int, int> {
    if width == 0 then m else PutBytes(m, a, v, width - 1)[a + width - 1 := ByteOf(v, width - 1)]
  }

  function PutSlotBytes(m: map<(nat, int), int>, slot: nat, offset: int, v: int, width: nat): map<(nat, int), int> {
    if width == 0 then m
    else PutSlotBytes(m, slot, offset, v, width - 1)[(slot, offset + width - 1) := ByteOf(v, width - 1)]
  }

  lemma {:induction false} PutBytesAt(m: map<int, int>, a: int, v: int, width: nat, b: int)
    ensures Get(PutBytes(m, a, v, width), b) == if a <= b < a + width then ByteOf(v, b - a) else Get(m, b)
  {
    if width > 0 {
      PutBytesAt(m, a, v, width - 1, b);
    }
  }

  lemma {:induction false} PutSlotBytesAt(m: map<(nat, int), int>, slot: nat, offset: int, v: int, width: nat, s: nat,
                                          b: int)
    ensures Get(PutSlotBytes(m, slot, offset, v, width), (s, b))
            == if s == slot && offset <= b < offset + width then ByteOf(v, b - offset) else Get(m, (s, b))
  {
    if width > 0 {
      PutSlotBytesAt(m, slot, offset, v, width - 1, s, b);
    }
  }

  function BytesAt(m: map<int, int>, a: int, width: nat): seq<int> {
    seq(width, k => Get(m, a + k))
  }

  function SlotBytesAt(m: map<(nat, int), int>, slot: nat, offset: int, width: nat): seq<int> {
    seq(width, k => Get(m, (slot, offset + k)))
  }

  // ---------------------------------------------------------------------
  // The two machines
  // ---------------------------------------------------------------------

  /** A register holds a number or the address of a place in a slot. */
  datatype Value = Num(n: int) | Address(slot: nat, offset: int)

  /** Slots are objects of their own; mem is all memory outside the frame. */
  datatype SlotState = SlotState(regs: map<nat, Value>, slots: map<(nat, int), int>, mem: map<int, int>)

  datatype FlatState = FlatState(regs: map<nat, int>, mem: map<int, int>)

  function Val(o: Operand, regs: map<nat, int>): Option<int> {
    match o
    case Reg(r) => Some(Get(regs, r))
    case Imm(n) => Some(n)
    case _ => None
  }

  function Vals(os: seq<Operand>, regs: map<nat, int>): Option<seq<int>> {
    if os == [] then Some([])
    else
      var first, rest := Val(os[0], regs), Vals(os[1..], regs);
      if first.Some? && rest.Some? then Some([first.value] + rest.value) else None
  }

  function Held(regs: map<nat, Value>, r: nat): Value {
    if r in regs then regs[r] else Num(0)
  }

  /** Only numbers can be computed with. */
  function SlotVal(o: Operand, regs: map<nat, Value>): Option<int> {
    match o
    case Reg(r) => if Held(regs, r).Num? then Some(Held(regs, r).n) else None
    case Imm(n) => Some(n)
    case _ => None
  }

  function SlotVals(os: seq<Operand>, regs: map<nat, Value>): Option<seq<int>> {
    if os == [] then Some([])
    else
      var first, rest := SlotVal(os[0], regs), SlotVals(os[1..], regs);
      if first.Some? && rest.Some? then Some([first.value] + rest.value) else None
  }

  /** The register an instruction may define: any but the stack pointer. */
  predicate Definable(operands: seq<Operand>) {
    operands != [] && operands[0].Reg? && operands[0].r != SP
  }

  /** The access stays inside a slot. */
  ghost predicate InSlot(slots: seq<Slot>, id: nat, offset: int, width: nat) {
    exists k :: 0 <= k < |slots| && slots[k].id == id && 0 <= offset && offset + width <= slots[k].size
  }

  /** The access stays outside the frame. */
  predicate OutsideFrame(sp: int, slots: seq<Slot>, a: int, width: nat) {
    a + width <= sp || sp + End(slots) <= a
  }

  datatype Place = InFrame(slot: nat, offset: int) | Outside(a: int)

  /** What a memory operand names. */
  function PlaceOf(o: Operand, regs: map<nat, Value>): Option<Place> {
    match o
    case StackAccess(slot, offset) => Some(InFrame(slot, offset))
    case Memory(base, offset) =>
      (match Held(regs, base)
       case Num(a) => Some(Outside(a + offset))
       case Address(slot, o) => Some(InFrame(slot, o + offset)))
    case _ => None
  }

  ghost predicate Accessible(slots: seq<Slot>, sp: Value, p: Place, width: nat) {
    match p
    case InFrame(slot, offset) => InSlot(slots, slot, offset, width)
    case Outside(a) => sp.Num? && OutsideFrame(sp.n, slots, a, width)
  }

  function ReadPlace(s: SlotState, p: Place, width: nat): int {
    match p
    case InFrame(slot, offset) => FromBytes(SlotBytesAt(s.slots, slot, offset, width))
    case Outside(a) => FromBytes(BytesAt(s.mem, a, width))
  }

  function WritePlace(s: SlotState, p: Place, v: int, width: nat): SlotState {
    match p
    case InFrame(slot, offset) => s.(slots := PutSlotBytes(s.slots, slot, offset, v, width))
    case Outside(a) => s.(mem := PutBytes(s.mem, a, v, width))
  }

  function Shifted(v: Value, n: int): Value {
    match v
    case Num(m) => Num(m + n)
    case Address(slot, offset) => Address(slot, offset + n)
  }

  function Define(s: SlotState, operands: seq<Operand>, v: Value): Option<SlotState>
    requires Definable(operands)
  {
    Some(s.(regs := s.regs[operands[0].r := v]))
  }

  /** An instruction on slots.  Accesses beyond their slot, or into the frame
      by any other way, are undefined; so are writing the stack pointer and
      storing an address. */
  ghost function SlotStep(compute: (nat, seq<int>) -> int, slots: seq<Slot>, i: Instr,
                          s: SlotState): Option<SlotState> {
    match i.op
    case OTHER(code) =>
      if !Definable(i.operands) || SlotVals(i.operands[1..], s.regs).None? then None
      else Define(s, i.operands, Num(compute(code, SlotVals(i.operands[1..], s.regs).value)))
    case CONTROL(_) => if SlotVals(i.operands, s.regs).Some? then Some(s) else None
    case RET => None
    case ADDRESS =>
      if |i.operands| != 2 || !Definable(i.operands) || !i.operands[1].StackAccess? then None
      else Define(s, i.operands, Address(i.operands[1].slot, i.operands[1].offset))
    case OFFSET =>
      if |i.operands| != 3 || !Definable(i.operands) || !i.operands[1].Reg? || SlotVal(i.operands[2],
        s.regs).None? then None
      else Define(s, i.operands, Shifted(Held(s.regs, i.operands[1].r), SlotVal(i.operands[2], s.regs).value))
    case LOAD(width) =>
      if |i.operands| != 2 || !Definable(i.operands) then None
      else
        (match PlaceOf(i.operands[1], s.regs)
         case None => None
         case Some(p) =>
           if Accessible(slots, Held(s.regs, SP), p, width) then Define(s, i.operands, Num(ReadPlace(s, p, width)))
           else None)
    case STORE(width) =>
      if |i.operands| != 2 || !i.operands[1].Reg? || SlotVal(i.operands[1], s.regs).None? then None
      else
        (match PlaceOf(i.operands[0], s.regs)
         case None => None
         case Some(p) =>
           if Accessible(slots, Held(s.regs, SP), p, width) then
             Some(WritePlace(s, p, SlotVal(i.operands[1], s.regs).value, width))
           else None)
  }

  /** A register, then the base register and the offset. */
  predicate BasePlusOffset(operands: seq<Operand>) {
    |operands| == 3 && operands[0].Reg? && operands[1].Reg? && operands[2].Imm?
  }

  /** The same instruction after the rewrite. */
  function FlatStep(compute: (nat, seq<int>) -> int, i: Instr, s: FlatState): Option<FlatState> {
    match i.op
    case OTHER(code) =>
      if i.operands == [] || !i.operands[0].Reg? || Vals(i.operands[1..], s.regs).None? then None
      else Some(s.(regs := s.regs[i.operands[0].r := compute(code, Vals(i.operands[1..], s.regs).value)]))
    case CONTROL(_) => if Vals(i.operands, s.regs).Some? then Some(s) else None
    case RET => None
    case ADDRESS =>
      if !BasePlusOffset(i.operands) then None
      else Some(s.(regs := s.regs[i.operands[0].r := Get(s.regs, i.operands[1].r) + i.operands[2].n]))
    case OFFSET =>
      if |i.operands| != 3 || !i.operands[0].Reg? || !i.operands[1].Reg? || Val(i.operands[2], s.regs).None? then None
      else Some(s.(regs := s.regs[i.operands[0].r := Get(s.regs, i.operands[1].r) + Val(i.operands[2], s.regs).value]))
    case LOAD(width) =>
      if !BasePlusOffset(i.operands) then None
      else
        var a := Get(s.regs, i.operands[1].r) + i.operands[2].n;
        Some(s.(regs := s.regs[i.operands[0].r := FromBytes(BytesAt(s.mem, a, width))]))
    case STORE(width) =>
      if !BasePlusOffset(i.operands) then None
      else
        var a := Get(s.regs, i.operands[1].r) + i.operands[2].n;
        Some(s.(mem := PutBytes(s.mem, a, Get(s.regs, i.operands[0].r), width)))
  }

  /** What instructions compute, and where they jump, is left open. */
  datatype Semantics = Semantics(compute: (nat, seq<int>) -> int, target: (nat, seq<int>) -> Option<nat>)

  /** The next instruction, for a jump that reads these values. */
  function Target(sem: Semantics, i: Instr, args: Option<seq<int>>, pc: nat): nat {
    if i.op.CONTROL? && args.Some? then
      match sem.target(i.op.code, args.value)
      case None => pc + 1
      case Some(t) => t
    else pc + 1
  }

  datatype SlotConfig = SlotConfig(pc: nat, s: SlotState)

  datatype FlatConfig = FlatConfig(pc: nat, s: FlatState)

  ghost function SlotNext(sem: Semantics, slots: seq<Slot>, code: seq<Instr>, c: SlotConfig): Option<SlotConfig> {
    if c.pc >= |code| then None
    else
      match SlotStep(sem.compute, slots, code[c.pc], c.s)
      case None => None
      case Some(t) => Some(SlotConfig(Target(sem, code[c.pc], SlotVals(code[c.pc].operands, c.s.regs), c.pc), t))
  }

  function FlatNext(sem: Semantics, code: seq<Instr>, c: FlatConfig): Option<FlatConfig> {
    if c.pc >= |code| then None
    else
      match FlatStep(sem.compute, code[c.pc], c.s)
      case None => None
      case Some(t) => Some(FlatConfig(Target(sem, code[c.pc], Vals(code[c.pc].operands, c.s.regs), c.pc), t))
  }

  ghost function SlotRun(sem: Semantics, slots: seq<Slot>, code: seq<Instr>, c: SlotConfig, n: nat): Option<SlotConfig>
    decreases n
  {
    if n == 0 then Some(c)
    else
      match SlotNext(sem, slots, code, c)
      case None => None
      case Some(c') => SlotRun(sem, slots, code, c', n - 1)
  }

  function FlatRun(sem: Semantics, code: seq<Instr>, c: FlatConfig, n: nat): Option<FlatConfig>
    decreases n
  {
    if n == 0 then Some(c)
    else
      match FlatNext(sem, code, c)
      case None => None
      case Some(c') => FlatRun(sem, code, c', n - 1)
  }

  // ---------------------------------------------------------------------
  // Refinement
  // ---------------------------------------------------------------------

  /** An address is a place behind the stack pointer. */
  function Flat(slots: seq<Slot>, sp: int, v: Value): int {
    match v
    case Num(n) => n
    case Address(slot, offset) => sp + (PositionOf(slots, slot) + offset)
  }

  ghost predicate RegsFlatten(slots: seq<Slot>, regs: map<nat, Value>, flat: map<nat, int>) {
    && Held(regs, SP) == Num(Get(flat, SP))
    && (forall r: nat :: Get(flat, r) == Flat(slots, Get(flat, SP), Held(regs, r)))
  }

  /** Registers hold what they held, addresses as numbers; each byte of each
      slot is at its place behind the stack pointer, and memory outside the
      frame is the same. */
  ghost predicate Flattens(slots: seq<Slot>, s: SlotState, f: FlatState) {
    var sp := Get(f.regs, SP);
    && RegsFlatten(slots, s.regs, f.regs)
    && (forall k, b :: 0 <= k < |slots| && 0 <= b < slots[k].size ==>
          Get(s.slots, (slots[k].id, b)) == Get(f.mem, sp + Position(slots, k) + b))
    && (forall a :: OutsideFrame(sp, slots, a, 1) ==> Get(s.mem, a) == Get(f.mem, a))
  }

  lemma SameSlot(slots: seq<Slot>, j: nat, k: nat)
    requires SortedById(slots) && j < |slots| && k < |slots| && slots[j].id == slots[k].id
    ensures j == k
  {
  }

  lemma LoadAgrees(slots: seq<Slot>, s: SlotState, f: FlatState, id: nat, offset: int, width: nat)
    requires SortedById(slots) && Flattens(slots, s, f) && InSlot(slots, id, offset, width)
    ensures SlotBytesAt(s.slots, id, offset, width)
            == BytesAt(f.mem, Get(f.regs, SP) + (PositionOf(slots, id) + offset), width)
  {
    hide Position;
    var k :| 0 <= k < |slots| && slots[k].id == id && 0 <= offset && offset + width <= slots[k].size;
    PositionOfSlot(slots, k);
    var a := Get(f.regs, SP) + (PositionOf(slots, id) + offset);
    forall n | 0 <= n < width
      ensures SlotBytesAt(s.slots, id, offset, width)[n] == BytesAt(f.mem, a, width)[n]
    {
      assert Get(s.slots, (slots[k].id, offset + n)) == Get(f.mem, Get(f.regs, SP) + Position(slots, k) + (offset + n));
    }
  }

  lemma MemLoadAgrees(slots: seq<Slot>, s: SlotState, f: FlatState, a: int, width: nat)
    requires Flattens(slots, s, f) && OutsideFrame(Get(f.regs, SP), slots, a, width)
    ensures BytesAt(s.mem, a, width) == BytesAt(f.mem, a, width)
  {
    hide Position, End;
    forall n | 0 <= n < width
      ensures BytesAt(s.mem, a, width)[n] == BytesAt(f.mem, a, width)[n]
    {
      assert OutsideFrame(Get(f.regs, SP), slots, a + n, 1);
    }
  }

  lemma StoreAgrees(slots: seq<Slot>, s: SlotState, f: FlatState, id: nat, offset: int, v: int, width: nat)
    requires SortedById(slots) && Fits(slots) && Flattens(slots, s, f) && InSlot(slots, id, offset, width)
    ensures Flattens(slots, s.(slots := PutSlotBytes(s.slots, id, offset, v, width)),
                     f.(mem := PutBytes(f.mem, Get(f.regs, SP) + (PositionOf(slots, id) + offset), v, width)))
  {
    hide Position, End, Fits, PutBytes, PutSlotBytes, ByteOf;
    var k :| 0 <= k < |slots| && slots[k].id == id && 0 <= offset && offset + width <= slots[k].size;
    PositionOfSlot(slots, k);
    SlotIsInside(slots, k);
    var sp := Get(f.regs, SP);
    var a := sp + (PositionOf(slots, id) + offset);
    forall j, b | 0 <= j < |slots| && 0 <= b < slots[j].size
      ensures Get(PutSlotBytes(s.slots, id, offset, v, width), (slots[j].id, b))
              == Get(PutBytes(f.mem, a, v, width), sp + Position(slots, j) + b)
    {
      PutSlotBytesAt(s.slots, id, offset, v, width, slots[j].id, b);
      PutBytesAt(f.mem, a, v, width, sp + Position(slots, j) + b);
      if slots[j].id == id {
        SameSlot(slots, j, k);
      } else if j < k {
        SlotsAreDisjoint(slots, j, k);
      } else {
        SlotsAreDisjoint(slots, k, j);
      }
    }
    forall b | OutsideFrame(sp, slots, b, 1)
      ensures Get(s.mem, b) == Get(PutBytes(f.mem, a, v, width), b)
    {
      PutBytesAt(f.mem, a, v, width, b);
    }
  }

  lemma MemStoreAgrees(slots: seq<Slot>, s: SlotState, f: FlatState, a: int, v: int, width: nat)
    requires Fits(slots) && Flattens(slots, s, f) && OutsideFrame(Get(f.regs, SP), slots, a, width)
    ensures Flattens(slots, s.(mem := PutBytes(s.mem, a, v, width)), f.(mem := PutBytes(f.mem, a, v, width)))
  {
    hide Position, End, Fits, PutBytes, ByteOf;
    var sp := Get(f.regs, SP);
    forall j, b | 0 <= j < |slots| && 0 <= b < slots[j].size
      ensures Get(s.slots, (slots[j].id, b)) == Get(PutBytes(f.mem, a, v, width), sp + Position(slots, j) + b)
    {
      SlotIsInside(slots, j);
      PutBytesAt(f.mem, a, v, width, sp + Position(slots, j) + b);
    }
    forall b | OutsideFrame(sp, slots, b, 1)
      ensures Get(PutBytes(s.mem, a, v, width), b) == Get(PutBytes(f.mem, a, v, width), b)
    {
      PutBytesAt(s.mem, a, v, width, b);
      PutBytesAt(f.mem, a, v, width, b);
    }
  }

  /** One instruction on slots is matched by its rewriting on flat memory. */
  lemma StepFlattens(compute: (nat, seq<int>) -> int, slots: seq<Slot>, i: Instr, s: SlotState, f: FlatState)
    requires SortedById(slots) && Fits(slots) && Flattens(slots, s, f) && SlotStep(compute, slots, i, s).Some?
    ensures var f' := FlatStep(compute, Rewrite(i, slots), f);
            f'.Some? && Flattens(slots, SlotStep(compute, slots, i, s).value, f'.value)
  {
    hide Flattens, Rewrite, SlotStep, FlatStep;
    match i.op
    case OTHER(_) => OtherFlattens(compute, slots, i, s, f);
    case CONTROL(_) => ControlFlattens(compute, slots, i, s, f);
    case RET => ReturnStops(compute, slots, i, s);
    case LOAD(_) => LoadFlattens(compute, slots, i, s, f);
    case STORE(_) => StoreFlattens(compute, slots, i, s, f);
    case ADDRESS => AddressFlattens(compute, slots, i, s, f);
    case OFFSET => OffsetFlattens(compute, slots, i, s, f);
  }

  lemma RegsAgree(slots: seq<Slot>, s: SlotState, f: FlatState)
    requires Flattens(slots, s, f)
    ensures RegsFlatten(slots, s.regs, f.regs)
  {
  }

  lemma {:induction false} ValsAgree(slots: seq<Slot>, os: seq<Operand>, regs: map<nat, Value>, flat: map<nat, int>)
    requires RegsFlatten(slots, regs, flat) && SlotVals(os, regs).Some?
    ensures Vals(os, flat) == SlotVals(os, regs)
  {
    if os != [] {
      ValsAgree(slots, os[1..], regs, flat);
    }
  }

  /** Setting any register but the stack pointer keeps the states together. */
  lemma RegisterFlattens(slots: seq<Slot>, s: SlotState, f: FlatState, d: nat, v: Value)
    requires Flattens(slots, s, f) && d != SP
    ensures Flattens(slots, s.(regs := s.regs[d := v]), f.(regs := f.regs[d := Flat(slots, Get(f.regs, SP), v)]))
  {
    hide Position, End, PositionOf, Flat, OutsideFrame;
    var sp := Get(f.regs, SP);
    var regs, flat := s.regs[d := v], f.regs[d := Flat(slots, sp, v)];
    assert Get(flat, SP) == sp && Held(regs, SP) == Held(s.regs, SP);
    forall r: nat
      ensures Get(flat, r) == Flat(slots, sp, Held(regs, r))
    {
      assert r != d ==> Get(f.regs, r) == Flat(slots, sp, Held(s.regs, r));
    }
  }

  lemma OtherFlattens(compute: (nat, seq<int>) -> int, slots: seq<Slot>, i: Instr, s: SlotState, f: FlatState)
    requires Flattens(slots, s, f) && i.op.OTHER? && SlotStep(compute, slots, i, s).Some?
    ensures var f' := FlatStep(compute, Rewrite(i, slots), f);
            f'.Some? && Flattens(slots, SlotStep(compute, slots, i, s).value, f'.value)
  {
    hide Flattens, RegsFlatten, SlotVals, Vals, FirstMem;
    RegsAgree(slots, s, f);
    NoMemOperand(i.operands, s.regs);
    ValsAgree(slots, i.operands[1..], s.regs, f.regs);
    RegisterFlattens(slots, s, f, i.operands[0].r, Num(compute(i.op.code, SlotVals(i.operands[1..], s.regs).value)));
  }

  lemma ReturnStops(compute: (nat, seq<int>) -> int, slots: seq<Slot>, i: Instr, s: SlotState)
    requires i.op.RET?
    ensures SlotStep(compute, slots, i, s).None?
  {
  }

  lemma ControlFlattens(compute: (nat, seq<int>) -> int, slots: seq<Slot>, i: Instr, s: SlotState, f: FlatState)
    requires Flattens(slots, s, f) && i.op.CONTROL? && SlotStep(compute, slots, i, s).Some?
    ensures Rewrite(i, slots) == i && Vals(i.operands, f.regs) == SlotVals(i.operands, s.regs)
    ensures var f' := FlatStep(compute, i, f);
            f'.Some? && Flattens(slots, SlotStep(compute, slots, i, s).value, f'.value)
  {
    hide Flattens, RegsFlatten, SlotVals, Vals;
    RegsAgree(slots, s, f);
    ValsPlain(i.operands, s.regs);
    ValsAgree(slots, i.operands, s.regs, f.regs);
  }

  lemma AddressFlattens(compute: (nat, seq<int>) -> int, slots: seq<Slot>, i: Instr, s: SlotState, f: FlatState)
    requires Flattens(slots, s, f) && i.op.ADDRESS? && SlotStep(compute, slots, i, s).Some?
    ensures var f' := FlatStep(compute, Rewrite(i, slots), f);
            f'.Some? && Flattens(slots, SlotStep(compute, slots, i, s).value, f'.value)
  {
    hide Flattens, PositionOf;
    assert FirstMem(i.operands, 0) == Some(1);
    RegisterFlattens(slots, s, f, i.operands[0].r, Address(i.operands[1].slot, i.operands[1].offset));
  }

  lemma OffsetFlattens(compute: (nat, seq<int>) -> int, slots: seq<Slot>, i: Instr, s: SlotState, f: FlatState)
    requires Flattens(slots, s, f) && i.op.OFFSET? && SlotStep(compute, slots, i, s).Some?
    ensures var f' := FlatStep(compute, Rewrite(i, slots), f);
            f'.Some? && Flattens(slots, SlotStep(compute, slots, i, s).value, f'.value)
  {
    hide Flattens, PositionOf;
    RegsAgree(slots, s, f);
    FirstMemIs(i.operands, 3);
    RegisterFlattens(slots, s, f, i.operands[0].r,
      Shifted(Held(s.regs, i.operands[1].r), SlotVal(i.operands[2], s.regs).value));
  }

  /** Where a place is in flat memory. */
  function FlatPlace(slots: seq<Slot>, sp: int, p: Place): int {
    match p
    case InFrame(slot, offset) => sp + (PositionOf(slots, slot) + offset)
    case Outside(a) => a
  }

  /** The operands that a memory operand is rewritten to name the same place. */
  lemma PlaceFlattens(slots: seq<Slot>, s: SlotState, f: FlatState, o: Operand)
    requires RegsFlatten(slots, s.regs, f.regs) && PlaceOf(o, s.regs).Some?
    ensures IsMemOperand(o)
    ensures var a := FlatPlace(slots, Get(f.regs, SP), PlaceOf(o, s.regs).value);
            if o.StackAccess? then a == Get(f.regs, SP) + (PositionOf(slots, o.slot) + o.offset)
            else a == Get(f.regs, o.base) + o.offset
  {
    hide PositionOf;
  }

  lemma ReadFlattens(slots: seq<Slot>, s: SlotState, f: FlatState, p: Place, width: nat)
    requires SortedById(slots) && Flattens(slots, s, f) && Accessible(slots, Held(s.regs, SP), p, width)
    ensures FromBytes(BytesAt(f.mem, FlatPlace(slots, Get(f.regs, SP), p), width)) == ReadPlace(s, p, width)
  {
    hide Flattens, FromBytes, PositionOf, SortedById, InSlot;
    RegsAgree(slots, s, f);
    match p
    case InFrame(slot, offset) => LoadAgrees(slots, s, f, slot, offset, width);
    case Outside(a) => MemLoadAgrees(slots, s, f, a, width);
  }

  lemma WriteFlattens(slots: seq<Slot>, s: SlotState, f: FlatState, p: Place, v: int, width: nat)
    requires SortedById(slots) && Fits(slots) && Flattens(slots, s, f) && Accessible(slots, Held(s.regs, SP), p, width)
    ensures Flattens(slots, WritePlace(s, p, v, width),
            f.(mem := PutBytes(f.mem, FlatPlace(slots, Get(f.regs, SP), p), v, width)))
  {
    hide Flattens, PositionOf, SortedById, InSlot, Fits, PutBytes, PutSlotBytes;
    RegsAgree(slots, s, f);
    match p
    case InFrame(slot, offset) => StoreAgrees(slots, s, f, slot, offset, v, width);
    case Outside(a) => MemStoreAgrees(slots, s, f, a, v, width);
  }

  lemma LoadFlattens(compute: (nat, seq<int>) -> int, slots: seq<Slot>, i: Instr, s: SlotState, f: FlatState)
    requires SortedById(slots) && Flattens(slots, s, f) && i.op.LOAD? && SlotStep(compute, slots, i, s).Some?
    ensures var f' := FlatStep(compute, Rewrite(i, slots), f);
            f'.Some? && Flattens(slots, SlotStep(compute, slots, i, s).value, f'.value)
  {
    hide Flattens, RegsFlatten, PlaceOf, FlatPlace, Accessible, ReadPlace, FromBytes, BytesAt, PositionOf, SortedById;
    var p := PlaceOf(i.operands[1], s.regs).value;
    RegsAgree(slots, s, f);
    PlaceFlattens(slots, s, f, i.operands[1]);
    FirstMemIs(i.operands, 1);
    ReadFlattens(slots, s, f, p, i.op.width);
    RegisterFlattens(slots, s, f, i.operands[0].r, Num(ReadPlace(s, p, i.op.width)));
  }

  lemma StoreFlattens(compute: (nat, seq<int>) -> int, slots: seq<Slot>, i: Instr, s: SlotState, f: FlatState)
    requires SortedById(slots) && Fits(slots) && Flattens(slots, s, f) && i.op.STORE? &&
             SlotStep(compute, slots, i, s).Some?
    ensures var f' := FlatStep(compute, Rewrite(i, slots), f);
            f'.Some? && Flattens(slots, SlotStep(compute, slots, i, s).value, f'.value)
  {
    hide Flattens, RegsFlatten, PlaceOf, FlatPlace, Accessible, WritePlace, PutBytes, PositionOf, SortedById, Fits;
    var p, v := PlaceOf(i.operands[0], s.regs).value, SlotVal(i.operands[1], s.regs).value;
    RegsAgree(slots, s, f);
    PlaceFlattens(slots, s, f, i.operands[0]);
    FirstMemIs(i.operands, 0);
    ValAgrees(slots, i.operands[1], s.regs, f.regs);
    WriteFlattens(slots, s, f, p, v, i.op.width);
  }

  lemma ValAgrees(slots: seq<Slot>, o: Operand, regs: map<nat, Value>, flat: map<nat, int>)
    requires RegsFlatten(slots, regs, flat) && SlotVal(o, regs).Some?
    ensures Val(o, flat) == SlotVal(o, regs)
  {
  }

  lemma NoMemOperand(operands: seq<Operand>, regs: map<nat, Value>)
    requires operands != [] && operands[0].Reg? && SlotVals(operands[1..], regs).Some?
    ensures FirstMem(operands, 0).None?
  {
    ValsPlain(operands[1..], regs);
    forall k | 0 <= k < |operands|
      ensures !IsMemOperand(operands[k])
    {
      if k > 0 {
        assert operands[k] == operands[1..][k - 1];
      }
    }
  }

  lemma {:induction false} ValsPlain(os: seq<Operand>, regs: map<nat, Value>)
    requires SlotVals(os, regs).Some?
    ensures forall k :: 0 <= k < |os| ==> !IsMemOperand(os[k])
  {
    if os != [] {
      ValsPlain(os[1..], regs);
      forall k | 0 <= k < |os|
        ensures !IsMemOperand(os[k])
      {
        if k > 0 {
          assert os[k] == os[1..][k - 1];
        }
      }
    }
  }

  /** Both machines go on at the same instruction. */
  lemma SameTarget(sem: Semantics, slots: seq<Slot>, i: Instr, s: SlotState, f: FlatState, pc: nat)
    requires Flattens(slots, s, f) && SlotStep(sem.compute, slots, i, s).Some?
    ensures Target(sem, Rewrite(i, slots), Vals(Rewrite(i, slots).operands, f.regs), pc)
            == Target(sem, i, SlotVals(i.operands, s.regs), pc)
  {
    hide Flattens, SlotStep, Vals, SlotVals;
    if i.op.CONTROL? {
      ControlFlattens(sem.compute, slots, i, s, f);
    }
  }

  /** The main result: a program whose accesses stay within their slots runs
      the same on flat memory, byte by byte and through the same instructions,
      jumps in both directions included. */
  lemma {:induction false} FlatMemoryRefines(sem: Semantics, slots: seq<Slot>, code: seq<Instr>, c: SlotConfig,
                                             f: FlatConfig, n: nat)
    requires SortedById(slots) && Fits(slots) && c.pc == f.pc && Flattens(slots, c.s, f.s)
    requires SlotRun(sem, slots, code, c, n).Some?
    ensures var c', f' := SlotRun(sem, slots, code, c, n).value, FlatRun(sem, Rewritten(code, slots), f, n);
            f'.Some? && f'.value.pc == c'.pc && Flattens(slots, c'.s, f'.value.s)
    decreases n
  {
    hide Fits, Flattens, Rewrite, SortedById, SlotStep, FlatStep, Target;
    if n > 0 {
      StepFlattens(sem.compute, slots, code[c.pc], c.s, f.s);
      SameTarget(sem, slots, code[c.pc], c.s, f.s, c.pc);
      FlatMemoryRefines(sem, slots, code, SlotNext(sem, slots, code, c).value,
                        FlatNext(sem, Rewritten(code, slots), f).value, n - 1);
    }
  }
}
