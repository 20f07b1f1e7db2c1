/** The linear scan: ranges in order of their definitions get registers from a
    pool, with a backup pool behind it, and give them back when they end. */
module LinearScan {
  import opened Words
  import opened Registers
  import opened LiveRanges

  /** A live range in the sorted list. */
  datatype Entry = Entry(v: nat, def: nat, kill: nat)

  /** Sorted by definition, then by kill; entries with equal keys may stand in
      any order. */
  ghost predicate Sorted(order: seq<Entry>) {
    forall i, j :: 0 <= i < j < |order| ==>
      order[i].def < order[j].def || (order[i].def == order[j].def && order[i].kill <= order[j].kill)
  }

  ghost predicate DistinctRegs(order: seq<Entry>) {
    forall i, j :: 0 <= i < j < |order| ==> order[i].v != order[j].v
  }

  // ---------------------------------------------------------------------
  // Which ranges hold a register
  // ---------------------------------------------------------------------

  /** The entries that need a register of their own and last until d. */
  function Lasting(order: seq<Entry>, pre: set<nat>, d: nat): seq<Entry> {
    if order == [] then []
    else
      var n := |order| - 1;
      Lasting(order[..n], pre, d) + IfLasts(order[n], pre, d)
  }

  function IfLasts(e: Entry, pre: set<nat>, d: nat): seq<Entry> {
    if e.v !in pre && e.kill >= d then [e] else []
  }

  lemma {:induction false} LastingMember(order: seq<Entry>, pre: set<nat>, d: nat, e: Entry)
    ensures e in Lasting(order, pre, d) <==> e in order && e.v !in pre && e.kill >= d
  {
    if order != [] {
      var n := |order| - 1;
      LastingMember(order[..n], pre, d, e);
      assert order == order[..n] + [order[n]];
    }
  }

  /** The ranges that hold a register when entry j is reached: those before it
      whose kill is not before the previous entry's definition. */
  function Busy(order: seq<Entry>, pre: set<nat>, j: nat): seq<Entry>
    requires j <= |order|
  {
    if j == 0 then [] else Lasting(order[..j], pre, order[j - 1].def)
  }

  lemma LastingSnoc(order: seq<Entry>, e: Entry, pre: set<nat>, d: nat)
    ensures Lasting(order + [e], pre, d) == Lasting(order, pre, d) + IfLasts(e, pre, d)
  {
    assert (order + [e])[..|order|] == order;
  }

  lemma {:induction false} LastingTwice(order: seq<Entry>, pre: set<nat>, d: nat, d': nat)
    requires d <= d'
    ensures Lasting(Lasting(order, pre, d), {}, d') == Lasting(order, pre, d')
  {
    if order != [] {
      var n := |order| - 1;
      LastingTwice(order[..n], pre, d, d');
      LastingEach(Lasting(order[..n], pre, d), order[n], pre, d, d');
    }
  }

  lemma LastingEach(before: seq<Entry>, e: Entry, pre: set<nat>, d: nat, d': nat)
    requires d <= d'
    ensures Lasting(before + IfLasts(e, pre, d), {}, d') == Lasting(before, {}, d') + IfLasts(e, pre, d')
  {
    if IfLasts(e, pre, d) == [e] {
      LastingSnoc(before, e, {}, d');
    } else {
      assert before + [] == before;
    }
  }

  /** One step of the scan: entry j joins unless it is pre-allocated, then the
      ranges that ended before its definition leave. */
  lemma BusyStep(order: seq<Entry>, pre: set<nat>, j: nat)
    requires Sorted(order) && j < |order|
    ensures var joined := Busy(order, pre, j) + (if order[j].v in pre then [] else [order[j]]);
            Lasting(joined, {}, order[j].def) == Busy(order, pre, j + 1)
  {
    hide Lasting;
    var e := order[j];
    assert order[..j + 1] == order[..j] + [e];
    LastingSnoc(order[..j], e, pre, e.def);
    if j == 0 {
      LastingNothing(pre, e.def);
      LastingNothing({}, e.def);
    } else {
      LastingTwice(order[..j], pre, order[j - 1].def, e.def);
    }
    LastingSnoc(Busy(order, pre, j), e, {}, e.def);
    assert Busy(order, pre, j) + [] == Busy(order, pre, j);
  }

  lemma LastingNothing(pre: set<nat>, d: nat)
    ensures Lasting([], pre, d) == []
  {
  }

  // ---------------------------------------------------------------------
  // Which registers they hold
  // ---------------------------------------------------------------------

  ghost predicate HaveRegs(work: seq<Entry>, regOf: map<nat, nat>) {
    forall e :: e in work ==> e.v in regOf
  }

  /** The 64-bit registers behind the entries' registers. */
  function Held(work: seq<Entry>, regOf: map<nat, nat>): (m: multiset<nat>)
    requires HaveRegs(work, regOf)
    ensures |m| == |work|
  {
    if work == [] then multiset{}
    else multiset{Parent(regOf[work[0].v])} + Held(work[1..], regOf)
  }

  lemma {:induction false} HeldAppend(a: seq<Entry>, b: seq<Entry>, regOf: map<nat, nat>)
    requires HaveRegs(a, regOf) && HaveRegs(b, regOf)
    ensures Held(a + b, regOf) == Held(a, regOf) + Held(b, regOf)
  {
    if a == [] {
      assert a + b == b;
    } else {
      assert (a + b)[1..] == a[1..] + b;
      HeldAppend(a[1..], b, regOf);
    }
  }

  lemma {:induction false} HeldElsewhere(work: seq<Entry>, regOf: map<nat, nat>, v: nat, r: nat)
    requires HaveRegs(work, regOf) && v !in regOf
    ensures HaveRegs(work, regOf[v := r]) && Held(work, regOf[v := r]) == Held(work, regOf)
  {
    if work != [] {
      HeldElsewhere(work[1..], regOf, v, r);
    }
  }

  lemma {:induction false} HeldIn(work: seq<Entry>, regOf: map<nat, nat>, e: Entry)
    requires HaveRegs(work, regOf) && e in work
    ensures Parent(regOf[e.v]) in Held(work, regOf)
  {
    if e != work[0] {
      HeldIn(work[1..], regOf, e);
    }
  }

  /** Every register is in one place: free, in reserve or held. */
  ghost predicate Conserved(pool: seq<nat>, backup: seq<nat>, work: seq<Entry>, regOf: map<nat, nat>,
                            regs: multiset<nat>) {
    && HaveRegs(work, regOf)
    && multiset(pool) + multiset(backup) + Held(work, regOf) == regs
  }

  /** The registers to hand out: 64-bit ones, each once. */
  ghost predicate Usable(regs: multiset<nat>) {
    forall r :: r in regs ==> IsX(r) && regs[r] == 1
  }

  // ---------------------------------------------------------------------
  // The result
  // ---------------------------------------------------------------------

  /** Of the entries before j, those that got their registers here do not
      share them while both are live. */
  ghost predicate Apart(order: seq<Entry>, pre: set<nat>, regOf: map<nat, nat>, j: nat) {
    && (forall i :: 0 <= i < j <= |order| ==> order[i].v in regOf)
    && forall i, k ::
         0 <= i < k < j <= |order| && order[i].v !in pre && order[k].v !in pre && order[i].kill >= order[k].def ==>
           Parent(regOf[order[i].v]) != Parent(regOf[order[k].v])
  }

  predicate Fits(sizes: map<nat, nat>, v: nat) {
    v in sizes && (sizes[v] == 32 || sizes[v] == 64)
  }

  /** There is a register for entry j: its size is that of a register, and
      fewer ranges hold one than there are. */
  ghost predicate Passes(order: seq<Entry>, sizes: map<nat, nat>, pre: set<nat>, regs: multiset<nat>, j: nat)
    requires j < |order|
  {
    order[j].v in pre || (Fits(sizes, order[j].v) && |Busy(order, pre, j)| < |regs|)
  }

  /** Entry j got a register of its size from those to hand out. */
  ghost predicate Suits(order: seq<Entry>, sizes: map<nat, nat>, pre: set<nat>, regs: multiset<nat>,
                        regOf: map<nat, nat>, j: nat)
    requires j < |order|
  {
    var v := order[j].v;
    v !in pre ==>
      && v in regOf && v in sizes && (IsX(regOf[v]) || IsW(regOf[v]))
      && Width(regOf[v]) == sizes[v] && Parent(regOf[v]) in regs
  }

  ghost predicate AllPass(order: seq<Entry>, sizes: map<nat, nat>, pre: set<nat>, regs: multiset<nat>, j: nat)
    requires j <= |order|
  {
    forall i :: 0 <= i < j ==> Passes(order, sizes, pre, regs, i)
  }

  ghost predicate AllSuit(order: seq<Entry>, sizes: map<nat, nat>, pre: set<nat>, regs: multiset<nat>,
                          regOf: map<nat, nat>, j: nat)
    requires j <= |order|
  {
    forall i :: 0 <= i < j ==> Suits(order, sizes, pre, regs, regOf, i)
  }

  /** Entry j got register r, or a part of it, from the scan. */
  ghost predicate Took(order: seq<Entry>, pre: set<nat>, regOf: map<nat, nat>, r: nat, j: nat)
    requires j < |order|
  {
    order[j].v !in pre && order[j].v in regOf && Parent(regOf[order[j].v]) == r
  }

  /** The recorded registers are exactly those in reserve that an entry
      before j got. */
  ghost predicate Records(order: seq<Entry>, pre: set<nat>, regOf: map<nat, nat>, reserve: seq<nat>, used: seq<nat>,
                          j: nat)
    requires j <= |order|
  {
    forall r :: r in used <==> r in reserve && exists i :: 0 <= i < j && Took(order, pre, regOf, r, i)
  }

  class LinearScanner {
    var pool: seq<nat>
    var backup: seq<nat>
    var regOf: map<nat, nat>
    var work: seq<Entry>
    var usedCalleeSaved: seq<nat>

    constructor (pool: seq<nat>, backup: seq<nat>, regOf: map<nat, nat>)
      ensures this.pool == pool && this.backup == backup && this.regOf == regOf
      ensures work == [] && usedCalleeSaved == []
    {
      this.pool, this.backup, this.regOf := pool, backup, regOf;
      work, usedCalleeSaved := [], [];
    }

    /** Takes the first free register, or failing that the first in reserve,
        or the part of it that has the right width. */
    method GetNextAvailableReg(size: nat, info: RegisterInfo) returns (r: Option<nat>)
      requires info.Valid() && forall x :: x in pool + backup ==> IsX(x)
      modifies this`pool, this`backup, this`usedCalleeSaved
      ensures r.Some? <==> old(pool + backup) != [] && (size == 32 || size == 64)
      ensures r.Some? ==> (IsX(r.value) || IsW(r.value)) && Width(r.value) == size
      ensures r.Some? ==> old(pool + backup)[0] == Parent(r.value)
      ensures r.Some? ==> pool + backup == old(pool + backup)[1..]
      ensures backup == if old(pool) == [] && old(backup) != [] then old(backup)[1..] else old(backup)
      ensures usedCalleeSaved + backup == old(usedCalleeSaved + backup)
      ensures usedCalleeSaved
              == old(usedCalleeSaved) + if old(pool) == [] && old(backup) != [] then [old(backup)[0]] else []
    {
      assert usedCalleeSaved + [] == usedCalleeSaved;
      if pool == [] && backup == [] {
        return None;
      }
      ghost var all := pool + backup;
      ghost var used := usedCalleeSaved + if pool == [] then [backup[0]] else [];
      if pool == [] {
        pool := [backup[0]];
        usedCalleeSaved := usedCalleeSaved + [backup[0]];
        backup := backup[1..];
      }
      assert pool + backup == all;
      var i := 0;
      while i < |pool|
        invariant i <= |pool| && (i > 0 ==> size != 32 && size != 64)
        invariant pool + backup == all && usedCalleeSaved + backup == old(usedCalleeSaved + backup)
        invariant usedCalleeSaved == used
        invariant backup == if old(pool) == [] && old(backup) != [] then old(backup)[1..] else old(backup)
      {
        assert pool[i] in all;
        var reg := info.GetRegisterByID(pool[i]);
        assert reg == RegisterAt(pool[i] - 1);
        if reg.width == size {
          r := Some(pool[i]);
          pool := pool[..i] + pool[i + 1..];
          assert pool + backup == all[1..];
          return;
        }
        var j := 0;
        while j < |reg.subRegs|
          invariant j <= 1 && (j > 0 ==> size != 32)
        {
          var sub := info.GetRegisterByID(reg.subRegs[j]);
          if sub.width == size {
            r := Some(reg.subRegs[j]);
            pool := pool[..i] + pool[i + 1..];
            assert pool + backup == all[1..];
            return;
          }
          j := j + 1;
        }
        i := i + 1;
      }
      r := None;
    }

    /** Gives the entry a register that no range in the work list holds. */
    method Assign(e: Entry, size: nat, ghost regs: multiset<nat>, info: RegisterInfo) returns (ok: bool)
      requires info.Valid() && Conserved(pool, backup, work, regOf, regs) && Usable(regs) && e.v !in regOf
      modifies this
      ensures ok <==> old(|work|) < |regs| && (size == 32 || size == 64)
      ensures !ok ==> regOf == old(regOf)
      ensures ok ==> Conserved(pool, backup, work, regOf, regs)
      ensures ok ==> work == old(work) + [e] && e.v in regOf && regOf == old(regOf)[e.v := regOf[e.v]]
      ensures ok ==> (IsX(regOf[e.v]) || IsW(regOf[e.v])) && Width(regOf[e.v]) == size && Parent(regOf[e.v]) in regs
      ensures ok ==> forall o :: o in old(work) ==> Parent(regOf[o.v]) != Parent(regOf[e.v])
      ensures usedCalleeSaved + backup == old(usedCalleeSaved + backup)
      ensures ok ==> forall x :: x in usedCalleeSaved <==>
                x in old(usedCalleeSaved) || (x == Parent(regOf[e.v]) && x in old(usedCalleeSaved + backup))
    {
      hide Held, Usable, IsX, IsW, Width;
      ghost var free, held := pool + backup, Held(work, regOf);
      Joined(pool, backup);
      AllAreX(free, held, regs);
      var r := GetNextAvailableReg(size, info);
      if r.None? {
        return false;
      }
      Joined(pool, backup);
      TakeFirst(free, held, regs);
      FromPoolNotReserve(old(pool), old(backup), held, regs);
      HeldElsewhere(work, regOf, e.v, r.value);
      HeldAppend(work, [e], regOf[e.v := r.value]);
      HeldOne(e, regOf[e.v := r.value]);
      forall o | o in work
        ensures Parent(regOf[o.v]) != Parent(r.value)
      {
        HeldIn(work, regOf, o);
      }
      regOf := regOf[e.v := r.value];
      work := work + [e];
      ok := true;
    }

    /** Gives back the registers of all ranges that ended before def. */
    method FreeExpired(def: nat, ghost regs: multiset<nat>, info: RegisterInfo)
      requires info.Valid() && Conserved(pool, backup, work, regOf, regs)
      requires forall e :: e in work ==> IsX(regOf[e.v]) || IsW(regOf[e.v])
      modifies this`pool, this`work
      ensures Conserved(pool, backup, work, regOf, regs)
      ensures work == Lasting(old(work), {}, def)
    {
      hide Lasting, Held, Parent;
      var i := 0;
      ghost var seen, kept, rest := [], [], work;
      LastingNothing({}, def);
      assert seen + rest == work == kept + rest;
      while i < |work|
        invariant seen + rest == old(work) && work == kept + rest && i == |kept| && kept == Lasting(seen, {}, def)
        invariant Conserved(pool, backup, work, regOf, regs)
        decreases |rest|
      {
        var e := work[i];
        assert e == rest[0] && e in old(work);
        LastingSnoc(seen, e, {}, def);
        Shift(seen, rest);
        if e.kill < def {
          var reg := regOf[e.v];
          var parent := info.GetParentReg(reg);
          if parent.Some? {
            reg := parent.value.id;
          }
          assert reg == Parent(regOf[e.v]) by { ParentIs(regOf[e.v]); }
          HeldErase(work, i, regOf);
          EraseFirst(kept, rest);
          Returned(pool, reg);
          pool := [reg] + pool;
          work := work[..i] + work[i + 1..];
          assert kept + [] == kept;
        } else {
          i := i + 1;
          Shift(kept, rest);
          kept := kept + [e];
        }
        seen, rest := seen + [e], rest[1..];
      }
      assert rest == [];
      assert seen + rest == seen && kept + rest == kept;
    }

    /** The main result: the scan finds a register for every entry exactly when
        there is one for each, and then entries that are live together have
        registers without a bit in common, however equal keys were ordered. */
    method Scan(order: seq<Entry>, sizes: map<nat, nat>, ghost regs: multiset<nat>, info: RegisterInfo)
      returns (ok: bool)
      requires info.Valid() && Sorted(order) && DistinctRegs(order) && Usable(regs)
      requires work == [] && usedCalleeSaved == [] && Conserved(pool, backup, work, regOf, regs)
      requires forall j :: 0 <= j < |order| && order[j].v !in regOf ==> order[j].v in sizes
      modifies this
      ensures ok <==> AllPass(order, sizes, old(regOf.Keys), regs, |order|)
      ensures ok ==> Apart(order, old(regOf.Keys), regOf, |order|)
      ensures ok ==> AllSuit(order, sizes, old(regOf.Keys), regs, regOf, |order|)
      ensures ok ==> Conserved(pool, backup, work, regOf, regs) && work == Busy(order, old(regOf.Keys), |order|)
      ensures usedCalleeSaved + backup == old(backup)
      ensures ok ==> Records(order, old(regOf.Keys), regOf, old(backup), usedCalleeSaved, |order|)
      ensures forall v :: v in old(regOf) ==> v in regOf && regOf[v] == old(regOf)[v]
    {
      hide Held, Lasting, Usable, Busy, IsX, IsW, Width, Parent, Apart, AllSuit, Records;
      ghost var pre := regOf.Keys;
      BusyNothing(order, pre);
      assert AllSuit(order, sizes, pre, regs, regOf, 0) &&
        Apart(order, pre, regOf, 0) by { NothingYet(order, sizes, pre, regs, regOf); }
      assert usedCalleeSaved + backup == old(backup) &&
        Records(order, pre, regOf, backup, usedCalleeSaved, 0) by { NothingRecorded(order, pre, regOf, backup); }
      var j := 0;
      while j < |order|
        invariant j <= |order|
        invariant Conserved(pool, backup, work, regOf, regs) && work == Busy(order, pre, j)
        invariant forall e :: e in work ==> IsX(regOf[e.v]) || IsW(regOf[e.v])
        invariant Apart(order, pre, regOf, j)
        invariant AllPass(order, sizes, pre, regs, j) && AllSuit(order, sizes, pre, regs, regOf, j)
        invariant forall i :: j <= i < |order| ==> (order[i].v in regOf <==> order[i].v in pre)
        invariant usedCalleeSaved + backup == old(backup)
        invariant Records(order, pre, regOf, old(backup), usedCalleeSaved, j)
        invariant forall v :: v in pre ==> v in regOf && regOf[v] == old(regOf)[v]
      {
        var e := order[j];
        ghost var before, used := regOf, usedCalleeSaved;
        BusyStep(order, pre, j);
        if e.v !in regOf {
          var fits := Assign(e, sizes[e.v], regs, info);
          if !fits {
            assert !Passes(order, sizes, pre, regs, j);
            return false;
          }
          JoinsApart(order, pre, before, regOf, j);
          JoinsSuit(order, sizes, pre, regs, before, regOf, j);
          JoinsRecords(order, pre, before, regOf, old(backup), used, usedCalleeSaved, j);
        } else {
          SkipsEntry(order, sizes, pre, regs, regOf, j);
          SkipsRecord(order, pre, regOf, old(backup), used, j);
          assert work + [] == work;
        }
        LastingSubset(work, e.def);
        FreeExpired(e.def, regs, info);
        j := j + 1;
      }
      ok := true;
    }
  }

  /** An entry whose register no busy range holds keeps the entries apart. */
  lemma JoinsApart(order: seq<Entry>, pre: set<nat>, before: map<nat, nat>, regOf: map<nat, nat>, j: nat)
    requires Sorted(order) && DistinctRegs(order) && j < |order| && Apart(order, pre, before, j)
    requires order[j].v !in before && order[j].v in regOf && regOf == before[order[j].v := regOf[order[j].v]]
    requires forall o :: o in Busy(order, pre, j) ==> o.v in regOf && Parent(regOf[o.v]) != Parent(regOf[order[j].v])
    ensures Apart(order, pre, regOf, j + 1)
  {
    hide Parent, Lasting;
    forall i | 0 <= i < j && order[i].v !in pre && order[i].kill >= order[j].def
      ensures Parent(regOf[order[i].v]) != Parent(regOf[order[j].v])
    {
      LastingMember(order[..j], pre, order[j - 1].def, order[i]);
      assert order[..j][i] == order[i];
      assert order[i] in Busy(order, pre, j);
    }
  }

  lemma JoinsSuit(order: seq<Entry>, sizes: map<nat, nat>, pre: set<nat>, regs: multiset<nat>, before: map<nat, nat>,
                  regOf: map<nat, nat>, j: nat)
    requires DistinctRegs(order) && j < |order| && AllSuit(order, sizes, pre, regs, before, j)
    requires order[j].v in regOf && regOf == before[order[j].v := regOf[order[j].v]]
    requires Suits(order, sizes, pre, regs, regOf, j)
    ensures AllSuit(order, sizes, pre, regs, regOf, j + 1)
  {
    forall i | 0 <= i < j
      ensures Suits(order, sizes, pre, regs, regOf, i)
    {
      assert order[i].v != order[j].v;
      assert Suits(order, sizes, pre, regs, before, i);
    }
  }

  /** The register of a new entry is recorded if it is one in reserve. */
  lemma JoinsRecords(order: seq<Entry>, pre: set<nat>, before: map<nat, nat>, regOf: map<nat, nat>, reserve: seq<nat>,
                     used: seq<nat>, used': seq<nat>, j: nat)
    requires DistinctRegs(order) && j < |order| && Records(order, pre, before, reserve, used, j)
    requires order[j].v !in pre && order[j].v in regOf && regOf == before[order[j].v := regOf[order[j].v]]
    requires forall x :: x in used' <==> x in used || (x == Parent(regOf[order[j].v]) && x in reserve)
    ensures Records(order, pre, regOf, reserve, used', j + 1)
  {
    hide Parent;
    forall i, r | 0 <= i < j
      ensures Took(order, pre, before, r, i) <==> Took(order, pre, regOf, r, i)
    {
      assert order[i].v != order[j].v;
    }
    forall r
      ensures r in used' <==> r in reserve && exists i :: 0 <= i < j + 1 && Took(order, pre, regOf, r, i)
    {
      assert r == Parent(regOf[order[j].v]) <==> Took(order, pre, regOf, r, j);
    }
  }

  lemma SkipsRecord(order: seq<Entry>, pre: set<nat>, regOf: map<nat, nat>, reserve: seq<nat>, used: seq<nat>, j: nat)
    requires j < |order| && order[j].v in pre && Records(order, pre, regOf, reserve, used, j)
    ensures Records(order, pre, regOf, reserve, used, j + 1)
  {
  }

  lemma NothingRecorded(order: seq<Entry>, pre: set<nat>, regOf: map<nat, nat>, reserve: seq<nat>)
    ensures [] + reserve == reserve && Records(order, pre, regOf, reserve, [], 0)
  {
  }

  /** A register of the pool is not in reserve as well. */
  lemma FromPoolNotReserve(pool: seq<nat>, backup: seq<nat>, held: multiset<nat>, regs: multiset<nat>)
    requires multiset(pool) + multiset(backup) + held == regs && Usable(regs)
    ensures forall r :: r in pool ==> r !in backup
  {
    forall r | r in pool
      ensures r !in backup
    {
      assert r in regs && regs[r] == multiset(pool)[r] + multiset(backup)[r] + held[r];
    }
  }

  lemma NothingYet(order: seq<Entry>, sizes: map<nat, nat>, pre: set<nat>, regs: multiset<nat>, regOf: map<nat, nat>)
    ensures AllSuit(order, sizes, pre, regs, regOf, 0) && Apart(order, pre, regOf, 0)
  {
  }

  /** A pre-allocated entry changes nothing. */
  lemma SkipsEntry(order: seq<Entry>, sizes: map<nat, nat>, pre: set<nat>, regs: multiset<nat>, regOf: map<nat, nat>,
                   j: nat)
    requires j < |order| && order[j].v in pre && order[j].v in regOf
    requires AllSuit(order, sizes, pre, regs, regOf, j) && Apart(order, pre, regOf, j)
    ensures AllSuit(order, sizes, pre, regs, regOf, j + 1) && Apart(order, pre, regOf, j + 1)
  {
  }

  lemma BusyNothing(order: seq<Entry>, pre: set<nat>)
    ensures Busy(order, pre, 0) == []
  {
  }

  lemma LastingSubset(order: seq<Entry>, d: nat)
    ensures forall e :: e in Lasting(order, {}, d) ==> e in order
  {
    forall e | e in Lasting(order, {}, d)
      ensures e in order
    {
      LastingMember(order, {}, d, e);
    }
  }

  lemma Joined(a: seq<nat>, b: seq<nat>)
    ensures multiset(a + b) == multiset(a) + multiset(b)
  {
  }

  lemma AllAreX(free: seq<nat>, held: multiset<nat>, regs: multiset<nat>)
    requires multiset(free) + held == regs && Usable(regs)
    ensures |free| + |held| == |regs| && forall x :: x in free ==> IsX(x)
  {
    forall x | x in free
      ensures IsX(x)
    {
      assert x in regs;
    }
  }

  /** The first free register is held by nobody. */
  lemma TakeFirst(free: seq<nat>, held: multiset<nat>, regs: multiset<nat>)
    requires multiset(free) + held == regs && Usable(regs) && free != []
    ensures multiset(free[1..]) + (held + multiset{free[0]}) == regs && free[0] in regs && free[0] !in held
  {
    assert free == [free[0]] + free[1..];
    assert free[0] in regs && regs[free[0]] == 1;
  }

  lemma ParentIs(r: nat)
    requires IsX(r) || IsW(r)
    ensures Parent(r) == if IsW(r) then RegisterAt(r + 31).id else r
  {
  }

  lemma Shift<T>(a: seq<T>, b: seq<T>)
    requires b != []
    ensures a + b == (a + [b[0]]) + b[1..]
  {
  }

  lemma EraseFirst<T>(a: seq<T>, b: seq<T>)
    requires b != []
    ensures (a + b)[..|a|] + (a + b)[|a| + 1..] == a + b[1..]
  {
  }

  lemma Returned(pool: seq<nat>, r: nat)
    ensures multiset([r] + pool) == multiset(pool) + multiset{r}
  {
  }

  lemma HeldErase(work: seq<Entry>, i: nat, regOf: map<nat, nat>)
    requires HaveRegs(work, regOf) && i < |work|
    ensures var rest := work[..i] + work[i + 1..];
            && HaveRegs(rest, regOf)
            && Held(work, regOf) == Held(rest, regOf) + multiset{Parent(regOf[work[i].v])}
  {
    hide Held;
    var a, x, b := work[..i], [work[i]], work[i + 1..];
    assert work == a + (x + b);
    HeldAppend(a, x + b, regOf);
    HeldAppend(x, b, regOf);
    HeldAppend(a, b, regOf);
    HeldOne(work[i], regOf);
  }

  lemma HeldOne(e: Entry, regOf: map<nat, nat>)
    requires HaveRegs([e], regOf)
    ensures Held([e], regOf) == multiset{Parent(regOf[e.v])}
  {
    assert [e][1..] == [];
  }
}
