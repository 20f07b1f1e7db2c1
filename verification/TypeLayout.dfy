/** Sizes and offsets of scalars, arrays of scalars and structs of these. */
module TypeLayout {
  import opened Words

  /** Data is a scalar, or an array of scalars when it has dimensions. */
  datatype IRType = Data(width: nat, dims: seq<nat>) | Struct(members: Members)

  datatype Members = NoMembers | Member(head: IRType, tail: Members)

  // ---------------------------------------------------------------------
  // Sizes
  // ---------------------------------------------------------------------

  function Product(dims: seq<nat>): nat {
    if dims == [] then 1 else dims[0] * Product(dims[1..])
  }

  function ByteSize(t: IRType): nat {
    match t
    case Data(width, dims) => (width * Product(dims) + 7) / 8
    case Struct(members) => MembersSize(members)
  }

  function MembersSize(ms: Members): nat {
    match ms
    case NoMembers => 0
    case Member(t, rest) => ByteSize(t) + MembersSize(rest)
  }

  function Count(ms: Members): nat {
    if ms.NoMembers? then 0 else 1 + Count(ms.tail)
  }

  function Nth(ms: Members, k: nat): IRType
    requires k < Count(ms)
  {
    if k == 0 then ms.head else Nth(ms.tail, k - 1)
  }

  /** The type after one index was applied. */
  function ReduceDimension(t: IRType): IRType {
    if t.Data? && t.dims != [] then Data(t.width, t.dims[1..]) else t
  }

  /** The bytes one step in dimension dim moves by. */
  function ElemSize(t: IRType, dim: nat): nat
    requires t.Data? && (dim == 0 || dim < |t.dims|)
  {
    (if dim < |t.dims| then Product(t.dims[dim + 1..]) else 1) * (t.width / 8)
  }

  function ElemByteOffset(ms: Members, k: nat): nat
    requires k <= Count(ms)
  {
    if k == 0 then 0 else ByteSize(ms.head) + ElemByteOffset(ms.tail, k - 1)
  }

  lemma {:induction false} ProductSnoc(dims: seq<nat>, d: nat)
    ensures Product(dims + [d]) == Product(dims) * d
  {
    if dims == [] {
      assert dims + [d] == [d] && [d][1..] == [];
    } else {
      assert (dims + [d])[1..] == dims[1..] + [d];
      ProductSnoc(dims[1..], d);
      Associate(dims[0], Product(dims[1..]), d);
    }
  }

  lemma Associate(a: nat, b: nat, c: nat)
    ensures a * (b * c) == (a * b) * c
  {
  }

  // ---------------------------------------------------------------------
  // Computing them in 32 bits
  // ---------------------------------------------------------------------

  /** The size in bytes as computed: the number of bits may wrap, and so may
      the sum over members. */
  function ByteSize32(t: IRType): nat {
    match t
    case Data(width, dims) => Unsigned(width * Product(dims) + 7) / 8
    case Struct(members) => MembersSize32(members)
  }

  function MembersSize32(ms: Members): nat {
    match ms
    case NoMembers => 0
    case Member(t, rest) => Unsigned(ByteSize32(t) + MembersSize32(rest))
  }

  function ElemByteOffset32(ms: Members, k: nat): nat
    requires k <= Count(ms)
  {
    if k == 0 then 0 else Unsigned(ByteSize32(ms.head) + ElemByteOffset32(ms.tail, k - 1))
  }

  /** No array has four gigabits, and no struct four gigabytes. */
  predicate Small(t: IRType) {
    match t
    case Data(width, dims) => width * Product(dims) + 7 < TWO_TO_THE_32
    case Struct(members) => AllSmall(members)
  }

  predicate AllSmall(ms: Members) {
    match ms
    case NoMembers => true
    case Member(t, rest) => Small(t) && AllSmall(rest) && MembersSize(ms) < TWO_TO_THE_32
  }

  /** The computed size is right exactly for these. */
  lemma {:induction false} SizeIsExact(t: IRType)
    ensures ByteSize32(t) <= ByteSize(t)
    ensures ByteSize32(t) == ByteSize(t) <==> Small(t)
  {
    match t
    case Data(width, dims) => UnsignedEighth(width * Product(dims) + 7);
    case Struct(members) => MembersAreExact(members);
  }

  lemma UnsignedEighth(x: nat)
    ensures Unsigned(x) / 8 <= x / 8
    ensures Unsigned(x) / 8 == x / 8 <==> x < TWO_TO_THE_32
  {
  }

  lemma {:induction false} MembersAreExact(ms: Members)
    ensures MembersSize32(ms) <= MembersSize(ms)
    ensures MembersSize32(ms) == MembersSize(ms) <==> AllSmall(ms)
  {
    hide Unsigned, ByteSize, ByteSize32;
    if ms.Member? {
      SizeIsExact(ms.head);
      MembersAreExact(ms.tail);
      UnsignedAtMost(ByteSize32(ms.head) + MembersSize32(ms.tail));
    }
  }

  lemma UnsignedAtMost(x: nat)
    ensures Unsigned(x) <= x && (Unsigned(x) == x <==> x < TWO_TO_THE_32)
  {
  }

  /** The offsets of members, too. */
  lemma {:induction false} OffsetIsExact(ms: Members, k: nat)
    requires k <= Count(ms) && AllSmall(ms)
    ensures ElemByteOffset32(ms, k) == ElemByteOffset(ms, k) <= MembersSize(ms)
  {
    hide Unsigned, ByteSize, ByteSize32;
    if k > 0 {
      SizeIsExact(ms.head);
      OffsetIsExact(ms.tail, k - 1);
      UnsignedAtMost(ByteSize(ms.head) + ElemByteOffset(ms.tail, k - 1));
    }
  }

  method GetByteSize(t: IRType) returns (size: nat)
    ensures size == ByteSize32(t)
    decreases t
  {
    hide Unsigned;
    match t {
      case Data(width, dims) =>
        var elements := 1;
        UnsignedSmall(1);
        for i := 0 to |dims|
          invariant elements == Unsigned(Product(dims[..i]))
        {
          assert dims[..i + 1] == dims[..i] + [dims[i]];
          ProductSnoc(dims[..i], dims[i]);
          UnsignedProduct(Product(dims[..i]), dims[i]);
          elements := Unsigned(elements * dims[i]);
        }
        assert dims[..|dims|] == dims;
        DataSize(width, Product(dims));
        size := Unsigned(Unsigned(elements * width) + 7) / 8;
      case Struct(members) =>
        size := 0;
        var rest := members;
        UnsignedSmall(0);
        MembersFit(members);
        while rest.Member?
          invariant rest == members || rest < members
          invariant size == Unsigned(size) && Unsigned(size + MembersSize32(rest)) == MembersSize32(members)
          decreases rest
        {
          var memberSize := GetByteSize(rest.head);
          SumStep(size, memberSize, MembersSize32(rest.tail));
          UnsignedTwice(size + memberSize);
          size := Unsigned(size + memberSize);
          rest := rest.tail;
        }
    }
  }

  lemma DataSize(width: nat, elements: nat)
    ensures Unsigned(Unsigned(Unsigned(elements) * width) + 7) == Unsigned(width * elements + 7)
  {
    UnsignedProduct(elements, width);
    UnsignedSum(7, elements * width);
  }

  lemma UnsignedSmall(x: nat)
    requires x < TWO_TO_THE_32
    ensures Unsigned(x) == x
  {
  }

  lemma UnsignedTwice(x: int)
    ensures Unsigned(Unsigned(x)) == Unsigned(x)
  {
  }

  lemma MembersFit(ms: Members)
    ensures Unsigned(MembersSize32(ms)) == MembersSize32(ms)
  {
  }

  lemma OffsetFits(ms: Members, k: nat)
    requires k <= Count(ms)
    ensures Unsigned(ElemByteOffset32(ms, k)) == ElemByteOffset32(ms, k)
  {
  }

  lemma SumStep(a: nat, b: nat, c: nat)
    ensures Unsigned(a + Unsigned(b + c)) == Unsigned(Unsigned(a + b) + c)
  {
    UnsignedSum(a, b + c);
    UnsignedSum(c, a + b);
  }

  method CalcElemSize(t: IRType, dim: nat) returns (size: nat)
    requires t.Data? && (dim == 0 || dim < |t.dims|)
    ensures size == Unsigned(ElemSize(t, dim))
  {
    var result, i := 1, dim + 1;
    while i < |t.dims|
      invariant i <= |t.dims| || i == dim + 1
      invariant i <= |t.dims| ==> result == Unsigned(Product(t.dims[dim + 1..i]))
      invariant i > |t.dims| ==> result == 1
    {
      assert t.dims[dim + 1..i + 1] == t.dims[dim + 1..i] + [t.dims[i]];
      ProductSnoc(t.dims[dim + 1..i], t.dims[i]);
      UnsignedProduct(Product(t.dims[dim + 1..i]), t.dims[i]);
      result := Unsigned(result * t.dims[i]);
      i := i + 1;
    }
    assert i <= |t.dims| ==> t.dims[dim + 1..i] == t.dims[dim + 1..];
    UnsignedProduct(if dim < |t.dims| then Product(t.dims[dim + 1..]) else 1, t.width / 8);
    size := Unsigned(result * (t.width / 8));
  }

  method GetElemByteOffset(ms: Members, index: nat) returns (offset: nat)
    requires index < Count(ms)
    ensures offset == ElemByteOffset32(ms, index)
  {
    hide Unsigned;
    offset := 0;
    var rest := ms;
    UnsignedSmall(0);
    OffsetFits(ms, index);
    for i := 0 to index
      invariant Count(rest) == Count(ms) - i
      invariant offset == Unsigned(offset) &&
                Unsigned(offset + ElemByteOffset32(rest, index - i)) == ElemByteOffset32(ms, index)
    {
      var size := GetByteSize(rest.head);
      SumStep(offset, size, ElemByteOffset32(rest.tail, index - i - 1));
      UnsignedTwice(offset + size);
      offset := Unsigned(offset + size);
      rest := rest.tail;
    }
  }

  // ---------------------------------------------------------------------
  // Access paths
  // ---------------------------------------------------------------------

  /** Indices and member numbers down to a scalar. */
  datatype Path = Done | At(index: nat, rest: Path)

  predicate InRange(t: IRType, p: Path)
    decreases p
  {
    match t
    case Data(_, dims) =>
      if dims == [] then p.Done?
      else p.At? && p.index < dims[0] && InRange(ReduceDimension(t), p.rest)
    case Struct(ms) => p.At? && p.index < Count(ms) && InRange(Nth(ms, p.index), p.rest)
  }

  function PathOffset(t: IRType, p: Path): nat
    requires InRange(t, p)
    decreases p
  {
    match t
    case Data(_, dims) => if dims == [] then 0 else p.index * ElemSize(t, 0) + PathOffset(ReduceDimension(t), p.rest)
    case Struct(ms) => ElemByteOffset(ms, p.index) + PathOffset(Nth(ms, p.index), p.rest)
  }

  function LeafSize(t: IRType, p: Path): nat
    requires InRange(t, p)
    decreases p
  {
    match t
    case Data(width, dims) => if dims == [] then width / 8 else LeafSize(ReduceDimension(t), p.rest)
    case Struct(ms) => LeafSize(Nth(ms, p.index), p.rest)
  }

  /** Scalars take whole bytes. */
  predicate WholeBytes(t: IRType) {
    match t
    case Data(width, _) => width % 8 == 0
    case Struct(ms) => AllWholeBytes(ms)
  }

  predicate AllWholeBytes(ms: Members) {
    match ms
    case NoMembers => true
    case Member(t, rest) => WholeBytes(t) && AllWholeBytes(rest)
  }

  lemma {:induction false} NthWholeBytes(ms: Members, k: nat)
    requires AllWholeBytes(ms) && k < Count(ms)
    ensures WholeBytes(Nth(ms, k))
  {
    if k > 0 {
      NthWholeBytes(ms.tail, k - 1);
    }
  }

  /** An array is its elements, one after the other. */
  lemma ArraySize(t: IRType)
    requires t.Data? && t.width % 8 == 0
    ensures ByteSize(t) == Product(t.dims) * (t.width / 8)
    ensures t.dims != [] ==> ByteSize(t) == t.dims[0] * ElemSize(t, 0) && ByteSize(ReduceDimension(t)) == ElemSize(t, 0)
  {
    EightBits(t.width, Product(t.dims));
    if t.dims != [] {
      EightBits(t.width, Product(t.dims[1..]));
      Associate(t.dims[0], Product(t.dims[1..]), t.width / 8);
    }
  }

  /** The bytes of an array hold its bits, and one byte less does not. */
  lemma BitsFit(t: IRType)
    requires t.Data?
    ensures 8 * ByteSize(t) >= t.width * Product(t.dims) > 8 * (ByteSize(t) - 1)
            || ByteSize(t) == 0 == t.width * Product(t.dims)
  {
    var bits: nat := t.width * Product(t.dims);
    assert 8 * ((bits + 7) / 8) <= bits + 7;
  }

  lemma EightBits(width: nat, n: nat)
    requires width % 8 == 0
    ensures (width * n + 7) / 8 == n * (width / 8)
  {
    var b := width / 8;
    assert width == 8 * b;
    Associate(8, b, n);
    var k := n * b;
    assert width * n == 8 * k;
    assert (8 * k + 7) / 8 == k;
  }

  lemma {:induction false} MemberInside(ms: Members, k: nat)
    requires k < Count(ms)
    ensures ElemByteOffset(ms, k) + ByteSize(Nth(ms, k)) <= MembersSize(ms)
  {
    if k > 0 {
      MemberInside(ms.tail, k - 1);
    }
  }

  lemma {:induction false} MembersApart(ms: Members, j: nat, k: nat)
    requires j < k < Count(ms)
    ensures ElemByteOffset(ms, j) + ByteSize(Nth(ms, j)) <= ElemByteOffset(ms, k)
  {
    if j == 0 {
    } else {
      MembersApart(ms.tail, j - 1, k - 1);
    }
  }

  lemma StepsApart(i: nat, j: nat, size: nat)
    requires i < j
    ensures i * size + size <= j * size
  {
    assert j * size - i * size == (j - i) * size;
    assert (j - i) * size == size + (j - i - 1) * size;
    NotNegative(j - i - 1, size);
  }

  lemma NotNegative(a: nat, b: nat)
    ensures a * b >= 0
  {
  }

  /** A path stays inside its object. */
  lemma {:induction false} PathInside(t: IRType, p: Path)
    requires InRange(t, p) && WholeBytes(t)
    ensures PathOffset(t, p) + LeafSize(t, p) <= ByteSize(t)
    decreases p
  {
    match t
    case Data(width, dims) =>
      ArraySize(t);
      if dims != [] {
        PathInside(ReduceDimension(t), p.rest);
        StepsApart(p.index, dims[0], ElemSize(t, 0));
      }
    case Struct(ms) =>
      NthWholeBytes(ms, p.index);
      PathInside(Nth(ms, p.index), p.rest);
      MemberInside(ms, p.index);
  }

  /** The main result about layout: different paths are different bytes. */
  lemma {:induction false} PathsAreDisjoint(t: IRType, p: Path, q: Path)
    requires InRange(t, p) && InRange(t, q) && WholeBytes(t) && p != q
    ensures || PathOffset(t, p) + LeafSize(t, p) <= PathOffset(t, q)
            || PathOffset(t, q) + LeafSize(t, q) <= PathOffset(t, p)
    decreases p
  {
    if p.index == q.index {
      match t {
        case Data(_, _) => PathsAreDisjoint(ReduceDimension(t), p.rest, q.rest);
        case Struct(ms) =>
          NthWholeBytes(ms, p.index);
          PathsAreDisjoint(Nth(ms, p.index), p.rest, q.rest);
      }
    } else if p.index < q.index {
      StepApart(t, p, q);
    } else {
      StepApart(t, q, p);
    }
  }

  /** And every byte of an object is named: there are no gaps. */
  lemma {:induction false} PathsCover(t: IRType, byte: nat) returns (p: Path)
    requires WholeBytes(t) && byte < ByteSize(t)
    ensures InRange(t, p) && PathOffset(t, p) <= byte < PathOffset(t, p) + LeafSize(t, p)
    decreases t, 0
  {
    match t
    case Data(width, dims) => p := ElementsCover(width, dims, byte);
    case Struct(ms) =>
      SizeOfStruct(ms);
      var k, rest := MembersCover(ms, byte);
      p := At(k, rest);
  }

  lemma {:induction false} ElementsCover(width: nat, dims: seq<nat>, byte: nat) returns (p: Path)
    requires width % 8 == 0 && byte < ByteSize(Data(width, dims))
    ensures var t := Data(width, dims);
            InRange(t, p) && PathOffset(t, p) <= byte < PathOffset(t, p) + LeafSize(t, p)
    decreases |dims|
  {
    hide ByteSize, ElemSize;
    var t := Data(width, dims);
    ArraySize(t);
    if dims == [] {
      assert Product(dims) == 1;
      p := Done;
    } else {
      var size := ElemSize(t, 0);
      var k, left := ElementAt(byte, dims[0], size);
      var rest := ElementsCover(width, dims[1..], left);
      p := At(k, rest);
    }
  }

  lemma ElementAt(byte: nat, count: nat, size: nat) returns (k: nat, left: nat)
    requires byte < count * size
    ensures k < count && left < size && byte == k * size + left
  {
    k, left := 0, byte;
    while left >= size
      invariant byte == k * size + left && k < count && left < (count - k) * size
      decreases left
    {
      assert (count - k) * size == (count - (k + 1)) * size + size;
      assert (k + 1) * size == k * size + size;
      assert size > 0 by { NotNegative(count - k, size); }
      k, left := k + 1, left - size;
    }
  }

  lemma SizeOfStruct(ms: Members)
    ensures ByteSize(Struct(ms)) == MembersSize(ms)
  {
  }

  lemma {:induction false} MembersCover(ms: Members, byte: nat) returns (k: nat, p: Path)
    requires AllWholeBytes(ms) && byte < MembersSize(ms)
    ensures k < Count(ms) && InRange(Nth(ms, k), p)
    ensures var start := ElemByteOffset(ms, k) + PathOffset(Nth(ms, k), p);
            start <= byte < start + LeafSize(Nth(ms, k), p)
    decreases ms, 1
  {
    hide ByteSize;
    if byte < ByteSize(ms.head) {
      p := PathsCover(ms.head, byte);
      k := 0;
    } else {
      k, p := MembersCover(ms.tail, byte - ByteSize(ms.head));
      k := k + 1;
    }
  }

  lemma StepApart(t: IRType, p: Path, q: Path)
    requires InRange(t, p) && InRange(t, q) && WholeBytes(t) && p.At? && q.At? && p.index < q.index
    ensures PathOffset(t, p) + LeafSize(t, p) <= PathOffset(t, q)
  {
    match t
    case Data(_, _) =>
      ArraySize(t);
      PathInside(ReduceDimension(t), p.rest);
      StepsApart(p.index, q.index, ElemSize(t, 0));
    case Struct(ms) =>
      NthWholeBytes(ms, p.index);
      PathInside(Nth(ms, p.index), p.rest);
      MembersApart(ms, p.index, q.index);
  }

  // ---------------------------------------------------------------------
  // Row-major order
  // ---------------------------------------------------------------------

  /** The number of the element in row-major order. */
  function RowMajor(dims: seq<nat>, indices: seq<nat>): nat
    requires |dims| == |indices|
  {
    if dims == [] then 0
    else
      var n := |dims| - 1;
      RowMajor(dims[..n], indices[..n]) * dims[n] + indices[n]
  }

  /** The address after a chain of element accesses, each on the type with one
      dimension less. */
  function Chain(base: int, t: IRType, indices: seq<nat>): int
    requires t.Data? && |indices| <= |t.dims|
    decreases |indices|
  {
    if indices == [] then base
    else Chain(base + indices[0] * ElemSize(t, 0), ReduceDimension(t), indices[1..])
  }

  lemma {:induction false} ChainSnoc(base: int, t: IRType, indices: seq<nat>, i: nat)
    requires t.Data? && |indices| < |t.dims|
    ensures Chain(base, t, indices + [i])
            == Chain(base, t, indices) + i * ElemSize(Data(t.width, t.dims[|indices|..]), 0)
    decreases |indices|
  {
    if indices == [] {
      assert indices + [i] == [i] && [i][1..] == [];
      assert t.dims[0..] == t.dims;
    } else {
      assert (indices + [i])[1..] == indices[1..] + [i];
      ChainSnoc(base + indices[0] * ElemSize(t, 0), ReduceDimension(t), indices[1..], i);
      assert t.dims[1..][|indices| - 1..] == t.dims[|indices|..];
    }
  }

  /** The chain of accesses to an element ends at its row-major position
      (section 6.5.2.1 of ISO/IEC 9899:2011). */
  lemma {:induction false} ChainIsRowMajor(base: int, t: IRType, indices: seq<nat>)
    requires t.Data? && |indices| <= |t.dims|
    ensures var k := |indices|;
            Chain(base, t, indices) == base + RowMajor(t.dims[..k], indices) * (Product(t.dims[k..]) * (t.width / 8))
    decreases |indices|
  {
    var k := |indices|;
    if k == 0 {
    } else {
      var n := k - 1;
      var front, last := indices[..n], indices[n];
      assert indices == front + [last];
      ChainIsRowMajor(base, t, front);
      ChainSnoc(base, t, front, last);
      assert t.dims[..k][..n] == t.dims[..n];
      assert t.dims[n..][1..] == t.dims[k..];
      var r, d, e := RowMajor(t.dims[..n], front), t.dims[n], Product(t.dims[k..]) * (t.width / 8);
      assert Product(t.dims[n..]) == d * Product(t.dims[k..]);
      Associate(d, Product(t.dims[k..]), t.width / 8);
      Associate(r, d, e);
      assert r * (d * e) + last * e == (r * d + last) * e;
    }
  }

  function PathOf(indices: seq<nat>): Path {
    if indices == [] then Done else At(indices[0], PathOf(indices[1..]))
  }

  /** What an index selects. */
  function Element(t: IRType, k: nat): IRType
    requires t.Struct? ==> k < Count(t.members)
  {
    if t.Data? then ReduceDimension(t) else Nth(t.members, k)
  }

  /** Every index into a struct is the number of a member. */
  predicate Steps(t: IRType, indices: seq<nat>)
    decreases |indices|
  {
    indices == [] || ((t.Struct? ==> indices[0] < Count(t.members)) && Steps(Element(t, indices[0]), indices[1..]))
  }

  /** The address after a chain of accesses into arrays and structs. */
  function Follow(base: int, t: IRType, indices: seq<nat>): int
    requires Steps(t, indices)
    decreases |indices|
  {
    if indices == [] then base
    else
      var step := if t.Data? then indices[0] * ElemSize(t, 0) else ElemByteOffset(t.members, indices[0]);
      Follow(base + step, Element(t, indices[0]), indices[1..])
  }

  lemma {:induction false} FollowIsChain(base: int, t: IRType, indices: seq<nat>)
    requires t.Data? && |indices| <= |t.dims|
    ensures Steps(t, indices) && Follow(base, t, indices) == Chain(base, t, indices)
    decreases |indices|
  {
    if indices != [] {
      FollowIsChain(base + indices[0] * ElemSize(t, 0), ReduceDimension(t), indices[1..]);
    }
  }

  /** The chain ends at the byte the path names. */
  lemma {:induction false} FollowIsPath(base: int, t: IRType, indices: seq<nat>)
    requires InRange(t, PathOf(indices))
    ensures Steps(t, indices) && Follow(base, t, indices) == base + PathOffset(t, PathOf(indices))
    decreases |indices|
  {
    hide ElemSize;
    if indices != [] {
      var step := if t.Data? then indices[0] * ElemSize(t, 0) else ElemByteOffset(t.members, indices[0]);
      FollowIsPath(base + step, Element(t, indices[0]), indices[1..]);
    }
  }
}
