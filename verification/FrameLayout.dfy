/** The stack frame: slots laid out in the order of their ids, each aligned to
    its own size by a bit mask. */
module FrameLayout {
  import opened Words

  // ---------------------------------------------------------------------
  // Bit-mask alignment
  // ---------------------------------------------------------------------

  /** Bitwise complement of an unsigned 32-bit number. */
  function Complement(m: nat): nat
    requires m < TWO_TO_THE_32
  {
    TWO_TO_THE_32 - 1 - m
  }

  /** Unsigned 32-bit arithmetic throughout. */
  function GetNextAlignedValue(val: nat, alignment: nat): nat {
    BitAnd(Unsigned(val + alignment - 1), Complement(Unsigned(alignment - 1)))
  }

  lemma Halve(x: nat, n: nat)
    requires n > 0 && x < Pow2(n)
    ensures x / 2 < Pow2(n - 1)
  {
  }

  /** Masking with a number and with its complement splits x. */
  lemma {:induction false} AndSplits(x: nat, m: nat, n: nat)
    requires x < Pow2(n) && m < Pow2(n)
    ensures BitAnd(x, Pow2(n) - 1 - m) + BitAnd(x, m) == x
    decreases n
  {
    if n > 0 && x > 0 {
      var c := Pow2(n) - 1 - m;
      Halve(x, n);
      Halve(m, n);
      AndSplits(x / 2, m / 2, n - 1);
      assert Pow2(n) == 2 * Pow2(n - 1);
      assert c == 2 * (Pow2(n - 1) - 1 - m / 2) + (1 - m % 2);
      assert c / 2 == Pow2(n - 1) - 1 - m / 2 && c % 2 == 1 - m % 2;
      AndStep(x, c);
      AndStep(x, m);
      Bits(x % 2, m % 2);
    }
  }

  lemma Bits(a: nat, b: nat)
    requires a < 2 && b < 2
    ensures a * (1 - b) + a * b == a
  {
  }

  lemma AndStep(x: nat, y: nat)
    ensures BitAnd(x, y) == 2 * BitAnd(x / 2, y / 2) + (x % 2) * (y % 2)
  {
    if x != 0 && y == 0 {
      AndZero(x / 2);
    }
  }

  lemma AndZero(x: nat)
    ensures BitAnd(x, 0) == 0
  {
  }

  lemma {:induction false} AndAtMost(x: nat, m: nat)
    ensures BitAnd(x, m) <= m
    decreases x
  {
    if x != 0 && m != 0 {
      AndAtMost(x / 2, m / 2);
      Product(x % 2, m % 2);
    }
  }

  lemma Product(a: nat, b: nat)
    requires a < 2 && b < 2
    ensures a * b <= b
  {
  }

  /** Masking with 2^k - 1 is the remainder by 2^k. */
  lemma {:induction false} AndIsMod(x: nat, k: nat)
    ensures BitAnd(x, Pow2(k) - 1) == x % Pow2(k)
    decreases k
  {
    if k == 0 {
      AndZero(x);
    } else {
      var p := Pow2(k - 1);
      assert (2 * p - 1) / 2 == p - 1 && (2 * p - 1) % 2 == 1;
      AndStep(x, 2 * p - 1);
      AndIsMod(x / 2, k - 1);
      ModTwice(x, p);
    }
  }

  lemma ModTwice(x: nat, p: nat)
    requires p > 0
    ensures x % (2 * p) == 2 * ((x / 2) % p) + x % 2
  {
    var q, r := (x / 2) / p, (x / 2) % p;
    assert x / 2 == q * p + r;
    assert x == 2 * (x / 2) + x % 2;
    var s := 2 * r + x % 2;
    assert 2 * (q * p) == q * (2 * p);
    assert x == q * (2 * p) + s && 0 <= s < 2 * p;
    RemainderIsUnique(x, 2 * p, q, s);
  }

  lemma Pow32()
    ensures Pow2(32) == TWO_TO_THE_32
  {
    assert Pow2(8) == 256;
    assert Pow2(16) == 65536;
    assert Pow2(24) == 16777216;
  }

  /** Without overflow, the aligned value is what masking leaves. */
  lemma AlignedIs(val: nat, alignment: nat)
    requires alignment >= 1 && val + alignment - 1 < TWO_TO_THE_32
    ensures var x := val + alignment - 1;
            GetNextAlignedValue(val, alignment) == x - BitAnd(x, alignment - 1)
  {
    hide BitAnd, Pow2;
    var x, m := val + alignment - 1, alignment - 1;
    Pow32();
    ModSmall(x, TWO_TO_THE_32);
    ModSmall(m, TWO_TO_THE_32);
    AndSplits(x, m, 32);
  }

  /** For every alignment, a power of two or not, the aligned value is less
      than one alignment away. */
  lemma AlignedIsNear(val: nat, alignment: nat)
    requires alignment >= 1 && val + alignment - 1 < TWO_TO_THE_32
    ensures val <= GetNextAlignedValue(val, alignment) <= val + alignment - 1
  {
    hide BitAnd, GetNextAlignedValue;
    AlignedIs(val, alignment);
    AndAtMost(val + alignment - 1, alignment - 1);
  }

  /** For powers of two it is the least multiple that is not smaller. */
  lemma AlignedIsLeast(val: nat, k: nat)
    requires val + Pow2(k) - 1 < TWO_TO_THE_32
    ensures var r := GetNextAlignedValue(val, Pow2(k));
            r % Pow2(k) == 0 && val <= r && forall m: nat :: m % Pow2(k) == 0 && m >= val ==> r <= m
  {
    hide BitAnd, GetNextAlignedValue, Pow2;
    var p := Pow2(k);
    AlignedIs(val, p);
    AndIsMod(val + p - 1, k);
    var r := GetNextAlignedValue(val, p);
    LeastMultiple(val, p, r);
  }

  lemma LeastMultiple(val: nat, p: nat, r: nat)
    requires p > 0 && r == val + p - 1 - (val + p - 1) % p
    ensures r % p == 0 && val <= r && forall m: nat :: m % p == 0 && m >= val ==> r <= m
  {
    var x := val + p - 1;
    var q := x / p;
    assert x == q * p + x % p;
    RemainderIsUnique(r, p, q, 0);
    forall m: nat | m % p == 0 && m >= val
      ensures r <= m
    {
      var j := m / p;
      assert m == j * p + m % p;
      if m < r {
        assert (q - j) * p == r - m;
        Multiple(q - j, p, r - m);
      }
    }
  }

  // ---------------------------------------------------------------------
  // Slots
  // ---------------------------------------------------------------------

  datatype Slot = Slot(id: nat, size: nat)

  /** Where the next slot would start before alignment, in 32 bits. */
  function Grow(position: nat, size: nat): nat {
    Unsigned(GetNextAlignedValue(position, size) + size)
  }

  function End(slots: seq<Slot>): nat {
    if slots == [] then 0 else Grow(End(slots[..|slots| - 1]), slots[|slots| - 1].size)
  }

  function Position(slots: seq<Slot>, k: nat): nat
    requires k < |slots|
  {
    GetNextAlignedValue(End(slots[..k]), slots[k].size)
  }

  /** No slot is empty and no step of the layout overflows. */
  predicate Fits(slots: seq<Slot>) {
    slots != [] ==>
      var n := |slots| - 1;
      var size := slots[n].size;
      && Fits(slots[..n]) && size >= 1
      && End(slots[..n]) + size - 1 < TWO_TO_THE_32
      && GetNextAlignedValue(End(slots[..n]), size) + size < TWO_TO_THE_32
  }

  lemma {:induction false} FitsBefore(slots: seq<Slot>, k: nat)
    requires Fits(slots) && k <= |slots|
    ensures Fits(slots[..k])
  {
    if k == |slots| {
      assert slots[..k] == slots;
    } else {
      var n := |slots| - 1;
      FitsBefore(slots[..n], k);
      assert slots[..n][..k] == slots[..k];
    }
  }

  /** A slot starts where the slots before it end, or a little later. */
  lemma PositionIs(slots: seq<Slot>, k: nat)
    requires Fits(slots) && k < |slots|
    ensures slots[k].size >= 1
    ensures End(slots[..k]) <= Position(slots, k)
    ensures Position(slots, k) + slots[k].size == End(slots[..k + 1])
  {
    hide GetNextAlignedValue, Fits, End;
    var front := slots[..k + 1];
    FitsBefore(slots, k + 1);
    assert front[..k] == slots[..k] && front[k] == slots[k];
    LastSlot(front);
  }

  lemma LastSlot(slots: seq<Slot>)
    requires Fits(slots) && slots != []
    ensures var n := |slots| - 1;
            var r := GetNextAlignedValue(End(slots[..n]), slots[n].size);
            slots[n].size >= 1 && End(slots[..n]) <= r && End(slots) == r + slots[n].size
  {
    hide GetNextAlignedValue;
    var n := |slots| - 1;
    AlignedIsNear(End(slots[..n]), slots[n].size);
    ModSmall(GetNextAlignedValue(End(slots[..n]), slots[n].size) + slots[n].size, TWO_TO_THE_32);
  }

  lemma {:induction false} EndGrows(slots: seq<Slot>, j: nat, k: nat)
    requires Fits(slots) && j <= k <= |slots|
    ensures End(slots[..j]) <= End(slots[..k])
    decreases k - j
  {
    if j < k {
      PositionIs(slots, k - 1);
      EndGrows(slots, j, k - 1);
    }
  }

  /** Slots do not overlap and lie inside the laid out area. */
  lemma SlotsAreDisjoint(slots: seq<Slot>, j: nat, k: nat)
    requires Fits(slots) && j < k < |slots|
    ensures Position(slots, j) + slots[j].size <= Position(slots, k)
    ensures Position(slots, k) + slots[k].size <= End(slots)
  {
    hide End, Fits, Position;
    PositionIs(slots, j);
    PositionIs(slots, k);
    EndGrows(slots, j + 1, k);
    EndGrows(slots, k + 1, |slots|);
    assert slots[..|slots|] == slots;
  }

  lemma SlotIsInside(slots: seq<Slot>, k: nat)
    requires Fits(slots) && k < |slots|
    ensures Position(slots, k) + slots[k].size <= End(slots)
    ensures k == |slots| - 1 ==> Position(slots, k) + slots[k].size == End(slots)
  {
    PositionIs(slots, k);
    EndGrows(slots, k + 1, |slots|);
    assert slots[..|slots|] == slots;
  }

  function TotalSize(slots: seq<Slot>): nat {
    if slots == [] then 0 else TotalSize(slots[..|slots| - 1]) + slots[|slots| - 1].size
  }

  /** Slots of less than two gigabytes in all never overflow. */
  lemma {:induction false} SmallFramesFit(slots: seq<Slot>)
    requires (forall k :: 0 <= k < |slots| ==> slots[k].size >= 1) && TotalSize(slots) < TWO_TO_THE_31
    ensures Fits(slots) && End(slots) <= 2 * TotalSize(slots)
  {
    hide GetNextAlignedValue;
    if slots != [] {
      var n := |slots| - 1;
      SmallFramesFit(slots[..n]);
      AlignedIsNear(End(slots[..n]), slots[n].size);
      ModSmall(GetNextAlignedValue(End(slots[..n]), slots[n].size) + slots[n].size, TWO_TO_THE_32);
    }
  }

  // ---------------------------------------------------------------------
  // The frame
  // ---------------------------------------------------------------------

  ghost predicate SortedById(slots: seq<Slot>) {
    forall i, j :: 0 <= i < j < |slots| ==> slots[i].id < slots[j].id
  }

  predicate HasSlot(slots: seq<Slot>, id: nat) {
    exists k :: 0 <= k < |slots| && slots[k].id == id
  }

  /** s was put in its place by id. */
  ghost predicate InsertedAt(before: seq<Slot>, after: seq<Slot>, s: Slot, at: nat) {
    at <= |before| && after == before[..at] + [s] + before[at..]
  }

  lemma InsertedStaysSorted(before: seq<Slot>, after: seq<Slot>, s: Slot, at: nat)
    requires SortedById(before) && InsertedAt(before, after, s, at)
    requires (forall k :: 0 <= k < at ==> before[k].id < s.id) && (at < |before| ==> s.id < before[at].id)
    ensures SortedById(after)
  {
    assert forall k :: 0 <= k < at ==> after[k] == before[k];
    assert forall k :: at < k < |after| ==> after[k] == before[k - 1];
  }

  lemma EndOfAppend(slots: seq<Slot>, s: Slot)
    ensures End(slots + [s]) == Grow(End(slots), s.size)
  {
    assert (slots + [s])[..|slots|] == slots;
  }

  class StackFrame {
    var objectsSize: nat
    var slots: seq<Slot>

    ghost predicate Valid()
      reads this
    {
      SortedById(slots)
    }

    constructor ()
      ensures Valid() && objectsSize == 0 && slots == []
    {
      objectsSize, slots := 0, [];
    }

    /** Slots are kept in the order of their ids; the size grows in the order
        of the calls. */
    method InsertStackSlot(id: nat, size: nat)
      requires Valid() && !HasSlot(slots, id)
      modifies this
      ensures Valid() && exists at :: InsertedAt(old(slots), slots, Slot(id, size), at)
      ensures objectsSize == Grow(old(objectsSize), size)
      ensures old(objectsSize == End(slots)) && (forall s :: s in old(slots) ==> s.id < id) ==>
                objectsSize == End(slots) && slots == old(slots) + [Slot(id, size)]
    {
      hide Grow, End, SortedById;
      EndOfAppend(slots, Slot(id, size));
      objectsSize := GetNextAlignedValue(objectsSize, size);
      objectsSize := Unsigned(objectsSize + size);
      assert objectsSize == Grow(old(objectsSize), size) by { GrowIs(old(objectsSize), size); }
      var at := 0;
      while at < |slots| && slots[at].id < id
        invariant at <= |slots| && forall k :: 0 <= k < at ==> slots[k].id < id
      {
        at := at + 1;
      }
      assert at < |slots| ==> slots[at].id != id && slots[at] in slots;
      slots := slots[..at] + [Slot(id, size)] + slots[at..];
      InsertedStaysSorted(old(slots), slots, Slot(id, size), at);
      assert InsertedAt(old(slots), slots, Slot(id, size), at);
      if at == |old(slots)| {
        assert slots == old(slots) + [Slot(id, size)];
      }
    }

    /** The slots before the wanted one are laid out again. */
    method GetPosition(id: nat) returns (r: nat)
      requires Valid() && HasSlot(slots, id)
      ensures exists k :: 0 <= k < |slots| && slots[k].id == id && r == Position(slots, k)
    {
      hide Grow;
      var position := 0;
      var k := 0;
      while slots[k].id != id
        invariant k < |slots| && position == End(slots[..k])
        invariant forall j :: 0 <= j < k ==> slots[j].id != id
        decreases |slots| - k
      {
        assert slots[..k + 1][..k] == slots[..k];
        GrowIs(position, slots[k].size);
        position := GetNextAlignedValue(position, slots[k].size);
        position := Unsigned(position + slots[k].size);
        k := k + 1;
      }
      r := GetNextAlignedValue(position, slots[k].size);
    }
  }

  lemma GrowIs(position: nat, size: nat)
    ensures Grow(position, size) == Unsigned(GetNextAlignedValue(position, size) + size)
  {
  }

  // ---------------------------------------------------------------------
  // Slots inserted late
  // ---------------------------------------------------------------------

  /** Where the given slots end when they are laid out from position on. */
  function EndFrom(position: nat, slots: seq<Slot>): nat
    decreases slots
  {
    if slots == [] then position else EndFrom(Grow(position, slots[0].size), slots[1..])
  }

  lemma {:induction false} EndAppend(a: seq<Slot>, b: seq<Slot>)
    ensures End(a + b) == EndFrom(End(a), b)
    decreases b
  {
    hide Grow;
    if b == [] {
      assert a + b == a;
    } else {
      assert a + b == (a + [b[0]]) + b[1..];
      assert (a + [b[0]])[..|a|] == a;
      EndAppend(a + [b[0]], b[1..]);
    }
  }

  /** A frame that was right gets a slot that does not belong at its end.  The
      size grows by the slot at the end, the layout by the slot in its place;
      the frame is too small exactly if the first grows less. */
  lemma LateSlotExactly(before: seq<Slot>, after: seq<Slot>, s: Slot, at: nat)
    requires InsertedAt(before, after, s, at)
    ensures var start, behind := End(before[..at]), before[at..];
            && Grow(End(before), s.size) == Grow(EndFrom(start, behind), s.size)
            && End(after) == EndFrom(Grow(start, s.size), behind)
            && (Grow(End(before), s.size) < End(after) <==>
                  Grow(EndFrom(start, behind), s.size) < EndFrom(Grow(start, s.size), behind))
  {
    hide Grow, End, EndFrom;
    var a, b := before[..at], before[at..];
    assert before == a + b && after == (a + [s]) + b;
    EndAppend(a, b);
    EndAppend(a + [s], b);
    OneMoreSlot(a, s);
  }

  lemma OneMoreSlot(a: seq<Slot>, s: Slot)
    ensures End(a + [s]) == Grow(End(a), s.size)
  {
    hide Grow;
    assert (a + [s])[..|a|] == a;
  }

  /** Sizes are powers of two, at most Pow2(k). */
  ghost predicate PowersUpTo(slots: seq<Slot>, k: nat) {
    forall i :: 0 <= i < |slots| ==> exists j: nat :: j <= k && slots[i].size == Pow2(j)
  }

  /** Laying out the slots from position on overflows nowhere. */
  predicate FitsFrom(position: nat, slots: seq<Slot>)
    decreases slots
  {
    slots != [] ==>
      && slots[0].size >= 1 && position + 2 * slots[0].size < TWO_TO_THE_32
      && FitsFrom(Grow(position, slots[0].size), slots[1..])
  }

  lemma {:induction false} PowDivides(j: nat, k: nat)
    requires j <= k
    ensures Pow2(k) == Pow2(k - j) * Pow2(j)
    decreases k
  {
    if j < k {
      PowDivides(j, k - 1);
      assert 2 * (Pow2(k - 1 - j) * Pow2(j)) == (2 * Pow2(k - 1 - j)) * Pow2(j);
    }
  }

  /** Alignment to a power of two commutes with moving by a larger one. */
  lemma GrowMoves(position: nat, j: nat, k: nat)
    requires j <= k && position + Pow2(k) + 2 * Pow2(j) < TWO_TO_THE_32
    ensures Grow(position + Pow2(k), Pow2(j)) == Grow(position, Pow2(j)) + Pow2(k)
  {
    hide GetNextAlignedValue, Pow2, Grow;
    var s, big := Pow2(j), Pow2(k);
    var x := position + s - 1;
    AlignedValue(position, j, s, x - x % s);
    AlignedValue(position + big, j, s, x + big - (x + big) % s);
    PowDivides(j, k);
    ModShift(x, Pow2(k - j), s);
    GrowFits(position, s);
    GrowFits(position + big, s);
  }

  lemma {:induction false} EndMoves(position: nat, slots: seq<Slot>, k: nat)
    requires PowersUpTo(slots, k) && FitsFrom(position + Pow2(k), slots)
    ensures EndFrom(position + Pow2(k), slots) == EndFrom(position, slots) + Pow2(k)
    decreases slots
  {
    hide Grow, Pow2;
    if slots != [] {
      var j: nat :| j <= k && slots[0].size == Pow2(j);
      GrowMoves(position, j, k);
      forall i | 0 <= i < |slots[1..]|
        ensures exists j: nat :: j <= k && slots[1..][i].size == Pow2(j)
      {
        assert slots[1..][i] == slots[i + 1];
      }
      EndMoves(Grow(position, slots[0].size), slots[1..], k);
    }
  }

  /** For powers of two, none behind the late slot larger than it: the frame is
      too small exactly if the slots behind it, moved up to the next multiple of
      its size, end beyond the next multiple after where they end now.  So it is
      large enough whenever the late slot needs no padding. */
  lemma LatePowerExactly(before: seq<Slot>, after: seq<Slot>, id: nat, k: nat, at: nat)
    requires InsertedAt(before, after, Slot(id, Pow2(k)), at) && PowersUpTo(before[at..], k)
    requires End(before[..at]) + 2 * Pow2(k) < TWO_TO_THE_32 && End(before) + 2 * Pow2(k) < TWO_TO_THE_32
    requires FitsFrom(Grow(End(before[..at]), Pow2(k)), before[at..])
    ensures var start, behind := End(before[..at]), before[at..];
            && (Grow(End(before), Pow2(k)) < End(after) <==>
                  GetNextAlignedValue(End(before), Pow2(k)) < EndFrom(GetNextAlignedValue(start, Pow2(k)), behind))
            && (start % Pow2(k) == 0 ==> Grow(End(before), Pow2(k)) >= End(after))
  {
    hide BitAnd, GetNextAlignedValue, End, EndFrom, FitsFrom, PowersUpTo, Pow2, Grow;
    var start, behind, size := End(before[..at]), before[at..], Pow2(k);
    LateSlotExactly(before, after, Slot(id, size), at);
    GrowFits(start, size);
    GrowFits(End(before), size);
    EndMoves(GetNextAlignedValue(start, size), behind, k);
    AlignedIsLeast(start, k);
    AlignedIsLeast(End(before), k);
    assert before == before[..at] + behind;
    EndAppend(before[..at], behind);
  }

  lemma GrowFits(position: nat, size: nat)
    requires size >= 1 && position + 2 * size < TWO_TO_THE_32
    ensures Grow(position, size) == GetNextAlignedValue(position, size) + size
  {
    hide GetNextAlignedValue;
    AlignedIsNear(position, size);
    ModSmall(GetNextAlignedValue(position, size) + size, TWO_TO_THE_32);
  }

  /** The two byte ranges have no byte in common. */
  predicate Apart(p: nat, n: nat, q: nat, m: nat) {
    p + n <= q || q + m <= p
  }

  /** Up to some slot all end before the gap of the given size, and the next one
      starts behind it. */
  ghost predicate LeavesGap(slots: seq<Slot>, at: nat, gap: nat, size: nat)
    requires at <= |slots|
  {
    exists j :: at <= j <= |slots| && GapAt(slots, j, gap, size)
  }

  ghost predicate GapAt(slots: seq<Slot>, j: nat, gap: nat, size: nat)
    requires j <= |slots|
  {
    End(slots[..j]) <= gap && (j < |slots| ==> gap + size <= Position(slots, j))
  }

  lemma LatePosition(before: seq<Slot>, after: seq<Slot>, s: Slot, at: nat)
    requires InsertedAt(before, after, s, at)
    ensures Position(after, at) == GetNextAlignedValue(End(before[..at]), s.size)
  {
    hide GetNextAlignedValue, End;
    assert after[..at] == before[..at] && after[at] == s;
  }

  /** The first slot from j on that does not end before the gap. */
  lemma {:induction false} FindGap(slots: seq<Slot>, j: nat, gap: nat, size: nat) returns (k: nat)
    requires Fits(slots) && j <= |slots| && End(slots[..j]) <= gap
    requires forall i :: 0 <= i < |slots| ==> Apart(Position(slots, i), slots[i].size, gap, size)
    ensures j <= k <= |slots| && GapAt(slots, k, gap, size)
    decreases |slots| - j
  {
    hide End, Position, Fits;
    k := j;
    if j < |slots| && Position(slots, j) + slots[j].size <= gap {
      PositionIs(slots, j);
      k := FindGap(slots, j + 1, gap, size);
    }
  }

  lemma GapIsApart(slots: seq<Slot>, j: nat, gap: nat, size: nat, i: nat)
    requires Fits(slots) && j <= |slots| && GapAt(slots, j, gap, size) && i < |slots|
    ensures Apart(Position(slots, i), slots[i].size, gap, size)
  {
    hide End, Position, Fits;
    PositionIs(slots, i);
    if i < j {
      EndGrows(slots, i + 1, j);
    } else if j < i {
      SlotsAreDisjoint(slots, j, i);
    }
  }

  /** Operands name positions in the layout before a late insertion, and only
      the late slot is looked up after it.  It shares no byte with the slots
      where they were exactly if it falls into a gap between them: some of those
      behind it fit into the padding in front of it, and the next one starts
      behind it. */
  lemma LateSlotIsApartExactly(before: seq<Slot>, after: seq<Slot>, s: Slot, at: nat)
    requires InsertedAt(before, after, s, at) && Fits(before)
    requires s.size >= 1 && End(before[..at]) + s.size - 1 < TWO_TO_THE_32
    ensures (forall i :: 0 <= i < |before| ==> Apart(Position(before, i), before[i].size, Position(after, at), s.size))
            <==> LeavesGap(before, at, Position(after, at), s.size)
  {
    hide End, Position, Fits, GetNextAlignedValue, GapAt;
    var gap := Position(after, at);
    LatePosition(before, after, s, at);
    AlignedIsNear(End(before[..at]), s.size);
    if forall i :: 0 <= i < |before| ==> Apart(Position(before, i), before[i].size, gap, s.size) {
      var k := FindGap(before, at, gap, s.size);
    }
    if j :| at <= j <= |before| && GapAt(before, j, gap, s.size) {
      forall i | 0 <= i < |before|
        ensures Apart(Position(before, i), before[i].size, gap, s.size)
      {
        GapIsApart(before, j, gap, s.size, i);
      }
    }
  }

  /** Gaps are smaller than the slots behind them.  So if no slot behind the
      late one is larger, all of them must fit into the padding in front of it. */
  lemma LateSlotNeedsPadding(before: seq<Slot>, after: seq<Slot>, s: Slot, at: nat)
    requires InsertedAt(before, after, s, at) && Fits(before)
    requires s.size >= 1 && End(before[..at]) + s.size - 1 < TWO_TO_THE_32
    requires forall i :: at <= i < |before| ==> before[i].size <= s.size
    ensures (forall i :: 0 <= i < |before| ==> Apart(Position(before, i), before[i].size, Position(after, at), s.size))
            <==> End(before) <= GetNextAlignedValue(End(before[..at]), s.size)
  {
    hide End, Position, Fits, GetNextAlignedValue, LeavesGap, Apart;
    LateSlotIsApartExactly(before, after, s, at);
    LatePosition(before, after, s, at);
    GapIsPadding(before, at, Position(after, at), s.size);
  }

  lemma GapIsPadding(slots: seq<Slot>, at: nat, gap: nat, size: nat)
    requires Fits(slots) && at <= |slots| && forall i :: at <= i < |slots| ==> slots[i].size <= size
    ensures LeavesGap(slots, at, gap, size) <==> End(slots) <= gap
  {
    hide End, Position, Fits;
    assert slots[..|slots|] == slots;
    if j :| at <= j <= |slots| && GapAt(slots, j, gap, size) {
      if j < |slots| {
        PositionIsNear(slots, j);
      }
    }
    if End(slots) <= gap {
      assert GapAt(slots, |slots|, gap, size);
    }
  }

  lemma PositionIsNear(slots: seq<Slot>, k: nat)
    requires Fits(slots) && k < |slots|
    ensures Position(slots, k) < End(slots[..k]) + slots[k].size
  {
    hide GetNextAlignedValue, End, Fits;
    FitsBefore(slots, k + 1);
    var front := slots[..k + 1];
    assert front[..k] == slots[..k] && front[k] == slots[k];
    LastIsNear(front);
  }

  lemma LastIsNear(slots: seq<Slot>)
    requires Fits(slots) && slots != []
    ensures var n := |slots| - 1;
            GetNextAlignedValue(End(slots[..n]), slots[n].size) < End(slots[..n]) + slots[n].size
  {
    hide GetNextAlignedValue;
    var n := |slots| - 1;
    AlignedIsNear(End(slots[..n]), slots[n].size);
  }

  /** One byte as slot 9998 and four ints as slots 10001 to 10004, then the link
      register's sixteen bytes as slot 10000: the last int and the saved link
      register are at the same place. */
  lemma LinkRegisterOverwritesLocal(before: seq<Slot>, after: seq<Slot>)
    requires before == [Slot(9998, 1), Slot(10001, 4), Slot(10002, 4), Slot(10003, 4), Slot(10004, 4)]
    requires after == before[..1] + [Slot(10000, 16)] + before[1..]
    ensures SortedById(after) && Position(before, 4) == 16 == Position(after, 1)
  {
    hide GetNextAlignedValue, Grow, End;
    var a := Slot(9998, 1);
    LatePosition(before, after, Slot(10000, 16), 1);
    assert before[..1] == [] + [a];
    assert before[..2] == before[..1] + [before[1]] && before[..3] == before[..2] + [before[2]];
    assert before[..4] == before[..3] + [before[3]];
    NoSlots();
    OneMoreSlot([], a);
    OneMoreSlot(before[..1], before[1]);
    OneMoreSlot(before[..2], before[2]);
    OneMoreSlot(before[..3], before[3]);
    AlignedValue(0, 0, 1, 0);
    AlignedValue(1, 2, 4, 4);
    AlignedValue(8, 2, 4, 8);
    AlignedValue(12, 2, 4, 12);
    AlignedValue(16, 2, 4, 16);
    AlignedValue(1, 4, 16, 16);
    GrowFits(0, 1);
    GrowFits(1, 4);
    GrowFits(8, 4);
    GrowFits(12, 4);
  }

  lemma NoSlots()
    ensures End([]) == 0
  {
  }

  lemma AlignedValue(val: nat, k: nat, size: nat, r: nat)
    requires size == Pow2(k) && val + size < TWO_TO_THE_32 && r == val + size - 1 - (val + size - 1) % size
    ensures GetNextAlignedValue(val, size) == r
  {
    hide BitAnd, GetNextAlignedValue, Pow2;
    AlignedIs(val, size);
    AndIsMod(val + size - 1, k);
  }

  /** The allocations of a function, in the order of their ids: the frame is
      exactly as large as the layout of its slots. */
  method AllocateFrame(ids: seq<nat>, sizes: map<nat, nat>) returns (frame: StackFrame)
    requires forall i, j :: 0 <= i < j < |ids| ==> ids[i] < ids[j]
    requires forall i :: 0 <= i < |ids| ==> ids[i] in sizes
    ensures fresh(frame) && frame.Valid() && frame.objectsSize == End(frame.slots)
    ensures |frame.slots| == |ids| && forall i :: 0 <= i < |ids| ==> frame.slots[i] == Slot(ids[i], sizes[ids[i]])
  {
    frame := new StackFrame();
    for i := 0 to |ids|
      invariant frame.Valid() && frame.objectsSize == End(frame.slots) && |frame.slots| == i
      invariant forall k :: 0 <= k < i ==> frame.slots[k] == Slot(ids[k], sizes[ids[k]])
    {
      frame.InsertStackSlot(ids[i], sizes[ids[i]]);
    }
  }
}
