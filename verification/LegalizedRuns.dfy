/** Whole functions before and after legalization: the same blocks are visited
    in the same order, jumps in the middle of a block included. */
module LegalizedRuns {
  import opened Words
  import opened MachineIR
  import opened Expansions
  import opened Legalizer

  /** k blocks from the start of block b; a block that is not left falls
      through into the next one. */
  function BlocksRun(e: Setting, blocks: seq<seq<MIR>>, b: nat, s: State, k: nat): Option<(nat, State)>
    decreases k
  {
    if k == 0 then Some((b, s))
    else if b >= |blocks| then None
    else
      match MachineIR.Run(e, blocks[b], s)
      case None => None
      case Some(t) => BlocksRun(e, blocks, if t.exit.Some? then t.exit.value else b + 1, t.(exit := None), k - 1)
  }

  /** The registers a block may read before it writes them. */
  function Exposed(code: seq<MIR>): set<nat> {
    if code == [] then {} else Reads(code[0]) + (Exposed(code[1..]) - Writes(code[0]))
  }

  /** The registers of one state that the other need not have. */
  function Extra(s: State, t: State, n: nat, but: set<nat>): set<nat> {
    but + set v | v in s.regs.Keys + t.regs.Keys && v >= n
  }

  lemma ForIsBut(s: State, t: State, n: nat, but: set<nat>)
    requires SameFor(s, t, n, but)
    ensures SameBut(s, t, Extra(s, t, n, but))
  {
  }

  lemma StepFrameFor(e: Setting, i: MIR, s: State, t: State, n: nat, but: set<nat>)
    requires SameFor(s, t, n, but) && Reads(i) !! but && Below(i, n) && Step(e, i, s).Some?
    ensures Step(e, i, t).Some?
    ensures SameFor(Step(e, i, s).value, Step(e, i, t).value, n, if s.exit.Some? then but else but - Writes(i))
  {
    hide Step, Reads, Writes;
    ForIsBut(s, t, n, but);
    StepFrame(e, i, s, t, Extra(s, t, n, but));
  }

  lemma ForLess(s: State, t: State, n: nat, but: set<nat>, more: set<nat>)
    requires but <= more
    ensures SameFor(s, t, n, but) ==> SameFor(s, t, n, more)
  {
  }

  /** A block runs alike from states that agree on what it may read. */
  lemma {:induction false} RunFrameFor(e: Setting, code: seq<MIR>, s: State, t: State, n: nat, but: set<nat>)
    requires SameFor(s, t, n, but) && CodeBelow(code, n) && Exposed(code) !! but && MachineIR.Run(e, code, s).Some?
    ensures MachineIR.Run(e, code, t).Some?
    ensures SameFor(MachineIR.Run(e, code, s).value, MachineIR.Run(e, code, t).value, n, but)
    decreases |code|
  {
    hide Step, SameFor, Below, Reads, Writes;
    if code != [] {
      if s.exit.Some? {
        BothLeft(s, t, n, but);
        RunDone(e, code, s);
        RunDone(e, code, t);
      } else {
        var less := but - Writes(code[0]);
        StepFrameFor(e, code[0], s, t, n, but);
        BelowRest(code, n);
        var s1, t1 := Step(e, code[0], s).value, Step(e, code[0], t).value;
        RunFrameFor(e, code[1..], s1, t1, n, less);
        ForLess(MachineIR.Run(e, code[1..], s1).value, MachineIR.Run(e, code[1..], t1).value, n, less, but);
      }
    }
  }

  lemma BothLeft(s: State, t: State, n: nat, but: set<nat>)
    requires SameFor(s, t, n, but)
    ensures s.exit == t.exit
  {
  }

  lemma BelowRest(code: seq<MIR>, n: nat)
    requires CodeBelow(code, n) && code != []
    ensures Below(code[0], n) && CodeBelow(code[1..], n)
  {
    hide Below;
  }

  /** The registers given up anywhere in the function. */
  function AllGivenUp(blocks: seq<seq<MIR>>): set<nat> {
    set b, v | 0 <= b < |blocks| && v in GivenUp(blocks[b]) :: v
  }

  /** No block takes over a register that was given up in another one. */
  ghost predicate NotCarried(blocks: seq<seq<MIR>>) {
    forall b :: 0 <= b < |blocks| ==> Exposed(blocks[b]) !! AllGivenUp(blocks)
  }

  lemma ForTrans(s: State, t: State, u: State, n: nat, a: set<nat>, b: set<nat>)
    requires SameFor(s, t, n, a) && SameFor(t, u, n, b) && b <= a
    ensures SameFor(s, u, n, a)
  {
  }

  lemma BlockRuns(e: Setting, before: seq<seq<MIR>>, after: seq<seq<MIR>>, b: nat, n: nat, s: State, t: State)
    requires |before| == |after| && b < |before| && NotCarried(before) && CodeBelow(before[b], n)
    requires Preserves(e, before[b], after[b], n, GivenUp(before[b]))
    requires SameFor(s, t, n, AllGivenUp(before)) && MachineIR.Run(e, before[b], s).Some?
    ensures MachineIR.Run(e, after[b], t).Some?
    ensures SameFor(MachineIR.Run(e, before[b], s).value, MachineIR.Run(e, after[b], t).value, n, AllGivenUp(before))
  {
    hide MachineIR.Run, SameFor, CodeBelow, Exposed, GivenUp;
    var given := AllGivenUp(before);
    assert GivenUp(before[b]) <= given;
    RunFrameFor(e, before[b], s, t, n, given);
    ForTrans(MachineIR.Run(e, before[b], s).value, MachineIR.Run(e, before[b], t).value,
      MachineIR.Run(e, after[b], t).value,
             n, given, GivenUp(before[b]));
  }

  lemma Entered(s: State, t: State, n: nat, but: set<nat>)
    requires SameFor(s, t, n, but)
    ensures s.exit == t.exit && SameFor(s.(exit := None), t.(exit := None), n, but)
  {
  }

  /** The main result: what MachineFunction.Run promises for each block carries
      over to whole runs.  The legalized function visits the same blocks and
      leaves memory, observations and all registers but those given up. */
  lemma {:induction false} LegalizedFunctionRuns(e: Setting, before: seq<seq<MIR>>, after: seq<seq<MIR>>, n: nat,
                                                 b: nat, s: State, t: State, k: nat)
    requires |before| == |after| && NotCarried(before)
    requires forall c :: 0 <= c < |before| ==>
             CodeBelow(before[c], n) && Preserves(e, before[c], after[c], n, GivenUp(before[c]))
    requires SameFor(s, t, n, AllGivenUp(before)) && BlocksRun(e, before, b, s, k).Some?
    ensures var r, r' := BlocksRun(e, before, b, s, k).value, BlocksRun(e, after, b, t, k);
            r'.Some? && r'.value.0 == r.0 && SameFor(r.1, r'.value.1, n, AllGivenUp(before))
    decreases k
  {
    hide MachineIR.Run, SameFor, CodeBelow, Preserves, NotCarried, AllGivenUp, GivenUp;
    if k > 0 {
      BlockRuns(e, before, after, b, n, s, t);
      var s1, t1 := MachineIR.Run(e, before[b], s).value, MachineIR.Run(e, after[b], t).value;
      Entered(s1, t1, n, AllGivenUp(before));
      LegalizedFunctionRuns(e, before, after, n, if s1.exit.Some? then s1.exit.value else b + 1,
                            s1.(exit := None), t1.(exit := None), k - 1);
    }
  }
}
