/** The time that simulate_dps_code leaves is the duration of the unrolled program, whenever no
    loop that it collapses depends on its own passes. */
module DpsExact {
  import opened DpsNodes
  import opened DpsBlocks
  import opened DpsTermination
  import opened DpsRun
  import opened DpsUnrolled

  // ----- the simulator's reading against the unrolled one ---------------------------------------------------

  /** Same time, and the same variables but for those of d. */
  ghost predicate Alike(o: Out, g: Result, d: set<int>) {
    o.time == g.time && Agree(o.rt, g.rt, d)
  }

  lemma {:induction false} SureReruns(b: Block, inc: seq<real>, rt: Vars)
    requires |inc| == DELAYS && Sure(b)
    ensures Run(b, inc, rt).rerun
    decreases b
  {
    if b.If? && Sure(b.thn) && b.hasElse && Sure(b.els) {
      SureReruns(b.thn, inc, Taken(b.test, rt).1);
      SureReruns(b.els, inc, Taken(b.test, rt).1);
      assert FrontOut(b, inc, rt) == IfOut(b, inc, rt) && IfOut(b, inc, rt).rerun;
    } else if Sure(b.rest) {
      SureReruns(b.rest, inc, FrontOut(b, inc, rt).rt);
    }
  }

  /** Run and Full agree on a block whose times read only variables that are sure to agree. */
  lemma {:induction false} RunIsFull(b: Block, inc: seq<real>, r: Vars, f: Vars, d: set<int>)
    requires |inc| == DELAYS && Agree(r, f, d) && Clean(b, d)
    ensures Alike(Run(b, inc, r), Full(b, inc, f), Dirt(b, d))
    decreases b, 2
  {
    hide Agree, FrontOut, FullFront, FrontDirt, FrontClean;
    if !b.Done? {
      FrontIsFull(b, inc, r, f, d);
      RunIsFull(b.rest, inc, FrontOut(b, inc, r).rt, FullFront(b, inc, f).rt, FrontDirt(b, d));
    }
  }

  lemma {:induction false} FrontIsFull(b: Block, inc: seq<real>, r: Vars, f: Vars, d: set<int>)
    requires |inc| == DELAYS && !b.Done? && Agree(r, f, d) && FrontClean(b, d)
    ensures Alike(FrontOut(b, inc, r), FullFront(b, inc, f), FrontDirt(b, d))
    decreases b, 1
  {
    match b
    case Leaf(node, _) =>
      hide Agree, LeafOut;
      LeafAgrees(node, inc, r, f, d);
    case Loop(start, body, ctr, _) => LoopIsFull(b, inc, r, f, d);
    case If(test, thn, hasElse, els, _) => IfIsFull(b, inc, r, f, d);
    case Par(chans, _) =>
      hide Agree;
      ChannelsAreFull(chans, inc, r, f, d, 0.0);
  }

  lemma {:induction false} IfIsFull(b: Block, inc: seq<real>, r: Vars, f: Vars, d: set<int>)
    requires |inc| == DELAYS && b.If? && Agree(r, f, d) && FrontClean(b, d)
    ensures Alike(FrontOut(b, inc, r), FullFront(b, inc, f), FrontDirt(b, d))
    decreases b, 0
  {
    hide Agree, Taken, TestDirt, Run, Full, Dirt, Clean;
    TestAgrees(b.test, r, f, d);
    var e := TestDirt(b.test, d);
    var (taken, r1) := Taken(b.test, r);
    var f1 := Taken(b.test, f).1;
    if taken {
      RunIsFull(b.thn, inc, r1, f1, e);
      AgreeMore(Run(b.thn, inc, r1).rt, Full(b.thn, inc, f1).rt, Dirt(b.thn, e), FrontDirt(b, d));
    } else if b.hasElse {
      RunIsFull(b.els, inc, r1, f1, e);
      AgreeMore(Run(b.els, inc, r1).rt, Full(b.els, inc, f1).rt, Dirt(b.els, e), FrontDirt(b, d));
    } else {
      AgreeMore(r1, f1, e, FrontDirt(b, d));
    }
  }

  lemma {:induction false} LoopIsFull(b: Block, inc: seq<real>, r: Vars, f: Vars, d: set<int>)
    requires |inc| == DELAYS && b.Loop? && Agree(r, f, d) && FrontClean(b, d)
    ensures Alike(FrontOut(b, inc, r), FullFront(b, inc, f), FrontDirt(b, d))
    decreases b, 0
  {
    hide Agree, EnterLoop, Dirt, Clean, Passes, FullPasses;
    EnterAgrees(b.start, r, f, d);
    var (r1, n) := EnterLoop(b.start, r);
    var f1 := EnterLoop(b.start, f).0;
    var e := EnterDirt(b.start, d);
    AgreeMore(r1, f1, e, PassDirt(b.body, b.ctr, e));
    PassesAreFull(b.body, b.ctr, n, false, inc, r1, f1, e);
  }

  lemma {:induction false} PassesAreFull(body: Block, ctr: int, n: int, again: bool, inc: seq<real>, r: Vars, f: Vars,
                                         e: set<int>)
    requires |inc| == DELAYS && n >= 1
    requires Agree(r, f, PassDirt(body, ctr, e)) && Clean(body, PassDirt(body, ctr, e))
    ensures Alike(Passes(body, ctr, n, again, inc, r), FullPasses(body, ctr, n, inc, f),
            Dirt(body, PassDirt(body, ctr, e)))
    decreases body, n + 3
  {
    hide Agree, Dirt, Clean, Run, Full, Set, PassDirt, Scale;
    var d := PassDirt(body, ctr, e);
    var p, q := Run(body, inc, r), Full(body, inc, f);
    RunIsFull(body, inc, r, f, d);
    if n == 1 {
      ScaleOne(p.time);
    } else if again || p.rerun {
      NextPassAgrees(body, ctr, e, p.rt, q.rt, n - 1);
      PassesAreFull(body, ctr, n - 1, true, inc, Set(p.rt, ctr, n - 1), Set(q.rt, ctr, n - 1), e);
    } else {
      NotLockstep(body, ctr, e, inc, r);
      ConstantPasses(body, ctr, n, inc, r, f, d);
    }
  }

  lemma ScaleOne(t: real)
    ensures Scale(1, t) == t
  {
  }

  lemma NextPassAgrees(body: Block, ctr: int, e: set<int>, r: Vars, f: Vars, n: int)
    requires Agree(r, f, Dirt(body, PassDirt(body, ctr, e)))
    ensures Agree(Set(r, ctr, n), Set(f, ctr, n), PassDirt(body, ctr, e))
  {
    hide Agree, Dirt, Set;
    var d := PassDirt(body, ctr, e);
    SetSame(r, f, Dirt(body, d), ctr, n);
    DirtBound(body, d);
    AgreeMore(Set(r, ctr, n), Set(f, ctr, n), Dirt(body, d) - {ctr}, d);
  }

  lemma NotLockstep(body: Block, ctr: int, e: set<int>, inc: seq<real>, r: Vars)
    requires |inc| == DELAYS && !Run(body, inc, r).rerun
    ensures Writes(body) + {ctr} <= PassDirt(body, ctr, e)
  {
    hide Run;
    if Sure(body) { SureReruns(body, inc, r); }
  }

  /** When no pass depends on what passes write, one pass times n is all of them. */
  lemma {:induction false} ConstantPasses(body: Block, ctr: int, n: int, inc: seq<real>, r: Vars, f: Vars, d: set<int>)
    requires |inc| == DELAYS && n >= 1
    requires Agree(r, f, d) && Clean(body, d) && Writes(body) + {ctr} <= d
    ensures var p, g := Run(body, inc, r), FullPasses(body, ctr, n, inc, f);
            g.time == Scale(n, p.time) && Agree(p.rt, g.rt, Dirt(body, d))
    decreases body, n + 2
  {
    hide Agree, Dirt, Clean, Run, Full, Set, Writes;
    RunIsFull(body, inc, r, f, d);
    if n > 1 {
      var g := Full(body, inc, f).rt;
      var f1 := Set(g, ctr, n - 1);
      FullWrites(body, inc, f);
      SetWrites(g, ctr, n - 1);
      AgreeThen(f, g, f1, Writes(body), {ctr});
      AgreeThen(r, f, f1, d, Writes(body) + {ctr});
      AgreeMore(r, f1, d + (Writes(body) + {ctr}), d);
      ConstantPasses(body, ctr, n - 1, inc, r, f1, d);
    }
  }

  lemma {:induction false} ChannelsAreFull(chans: Channels, inc: seq<real>, r: Vars, f: Vars, d: set<int>,
                                           longest: real)
    requires |inc| == DELAYS && Agree(r, f, d) && ChannelsClean(chans, d)
    ensures Alike(ChannelsOut(chans, inc, r, longest), FullChannels(chans, inc, f, longest), ChannelsDirt(chans, d))
    decreases chans, 0
  {
    hide Agree, Dirt, Clean, Run, Full;
    match chans
    case NoChannels =>
    case Channel(_, body, more) =>
      RunIsFull(body, inc, r, f, d);
      var p, q := Run(body, inc, r), Full(body, inc, f);
      ChannelsAreFull(more, inc, p.rt, q.rt, Dirt(body, d), Larger(longest, p.time));
  }

  // ----- from the list of nodes to the unrolled program -----------------------------------------------------

  ghost predicate Segment(nodes: seq<Node>, i: nat, part: seq<Node>) {
    i + |part| <= |nodes| && nodes[i..i + |part|] == part
  }

  lemma SplitCat(nodes: seq<Node>, i: nat, a: seq<Node>, b: seq<Node>)
    requires Segment(nodes, i, Cat(a, b))
    ensures Segment(nodes, i, a) && Segment(nodes, i + |a|, b) && |Cat(a, b)| == |a| + |b|
  {
    assert nodes[i..i + |a|] == (a + b)[..|a|] == a;
    assert nodes[i + |a|..i + |a| + |b|] == (a + b)[|a|..] == b;
  }

  lemma SplitCons(nodes: seq<Node>, i: nat, n: Node, b: seq<Node>)
    requires Segment(nodes, i, Cons(n, b))
    ensures NodeAt(nodes, i, n) && Segment(nodes, i + 1, b) && |Cons(n, b)| == 1 + |b|
  {
    SplitCat(nodes, i, [n], b);
    assert nodes[i] == nodes[i..i + 1][0];
  }

  /** A block lies wherever its nodes do. */
  lemma {:induction false} FlattenAt(nodes: seq<Node>, i: nat, b: Block)
    requires Segment(nodes, i, Flatten(b))
    ensures At(nodes, i, b) && |Flatten(b)| == Size(b)
    decreases b, 2
  {
    hide Segment, Cat, FlattenFront, FrontAt, FrontSize;
    if !b.Done? {
      SplitCat(nodes, i, FlattenFront(b), Flatten(b.rest));
      FrontAtItsNodes(nodes, i, b);
      FlattenAt(nodes, i + FrontSize(b), b.rest);
    }
  }

  lemma {:induction false} FrontAtItsNodes(nodes: seq<Node>, i: nat, b: Block)
    requires !b.Done? && Segment(nodes, i, FlattenFront(b))
    ensures FrontAt(nodes, i, b) && |FlattenFront(b)| == FrontSize(b)
    decreases b, 1
  {
    hide Segment, NodeAt, Cons, Cat, Flatten, At, Size;
    match b
    case Leaf(node, _) => SplitCons(nodes, i, node, []);
    case Loop(start, body, ctr, _) =>
      var last := Cons(LoopEnd(ctr), []);
      SplitCons(nodes, i, start, Cat(Flatten(body), last));
      SplitCat(nodes, i + 1, Flatten(body), last);
      FlattenAt(nodes, i + 1, body);
      SplitCons(nodes, i + 1 + Size(body), LoopEnd(ctr), []);
    case If(_, _, _, _, _) => FlattenIfAt(nodes, i, b);
    case Par(chans, _) =>
      SplitCat(nodes, i, FlattenChannels(chans), Cons(ParallelEnd, []));
      FlattenChannelsAt(nodes, i, chans);
      SplitCons(nodes, i + ChannelsSize(chans), ParallelEnd, []);
  }

  lemma {:induction false} FlattenIfAt(nodes: seq<Node>, i: nat, b: Block)
    requires b.If? && Segment(nodes, i, FlattenFront(b))
    ensures FrontAt(nodes, i, b) && |FlattenFront(b)| == FrontSize(b)
    decreases b, 0
  {
    hide Segment, NodeAt, Cons, Cat, Flatten, At, Size;
    var more := IfEnd(b);
    SplitCons(nodes, i, b.test, Cat(Flatten(b.thn), more));
    SplitCat(nodes, i + 1, Flatten(b.thn), more);
    FlattenAt(nodes, i + 1, b.thn);
    IfEndAt(nodes, i + 1 + Size(b.thn), b);
  }

  /** The nodes of an if from its else on, or from its end. */
  function IfEnd(b: Block): seq<Node>
    requires b.If?
  {
    if b.hasElse then Cons(ElseNz, Cat(Flatten(b.els), Cons(EndIf, []))) else Cons(EndIf, [])
  }

  lemma {:induction false} IfEndAt(nodes: seq<Node>, j: nat, b: Block)
    requires b.If? && Segment(nodes, j, IfEnd(b))
    ensures b.hasElse ==> NodeAt(nodes, j, ElseNz) && At(nodes, j + 1, b.els)
    ensures NodeAt(nodes, if b.hasElse then j + 1 + Size(b.els) else j, EndIf)
    ensures |IfEnd(b)| == if b.hasElse then 2 + Size(b.els) else 1
    decreases b.els, 3
  {
    hide Segment, NodeAt, Cons, Cat, Flatten, At, Size;
    if b.hasElse {
      var last := Cons(EndIf, []);
      SplitCons(nodes, j, ElseNz, Cat(Flatten(b.els), last));
      SplitCat(nodes, j + 1, Flatten(b.els), last);
      FlattenAt(nodes, j + 1, b.els);
      SplitCons(nodes, j + 1 + Size(b.els), EndIf, []);
    } else {
      SplitCons(nodes, j, EndIf, []);
    }
  }

  lemma {:induction false} FlattenChannelsAt(nodes: seq<Node>, i: nat, chans: Channels)
    requires Segment(nodes, i, FlattenChannels(chans))
    ensures ChannelsAt(nodes, i, chans) && |FlattenChannels(chans)| == ChannelsSize(chans)
    decreases chans, 1
  {
    hide Segment, NodeAt, Cons, Cat, Flatten, At, Size;
    match chans
    case NoChannels =>
    case Channel(chan, body, more) =>
      SplitCons(nodes, i, ParallelStart(chan), Cat(Flatten(body), FlattenChannels(more)));
      SplitCat(nodes, i + 1, Flatten(body), FlattenChannels(more));
      FlattenAt(nodes, i + 1, body);
      FlattenChannelsAt(nodes, i + 1 + Size(body), more);
  }

  /** Nothing, or a LAST_CODE that an earlier and longer list may follow. */
  predicate Tail(nodes: seq<Node>) {
    nodes == [] || nodes[0].LastCode?
  }

  /** Where the run of simulate_dps_code over a well-nested list stops, and with what. */
  lemma StopsWithRun(b: Block, tail: seq<Node>, inc: seq<real>, rt: Vars, n: nat)
    requires |inc| == DELAYS && Fits(b, 1, true) && Tail(tail)
    requires !Active(Flatten(b) + tail, Turns(Flatten(b) + tail, inc, Initial(rt), n))
    ensures var o := Run(b, inc, rt);
            Turns(Flatten(b) + tail, inc, Initial(rt), n) ==
              Sim(|Flatten(b)|, [Frame(o.time, 1, o.rerun, -1)], o.rt, 0, seq(TOTALCH, _ => 0.0))
  {
    hide Fits, At, Turns, Flatten, Run, Size;
    var nodes := Flatten(b) + tail;
    assert Segment(nodes, 0, Flatten(b));
    FlattenAt(nodes, 0, b);
    BlockGoes(nodes, inc, Initial(rt), b, true);
    var o := Run(b, inc, rt);
    assert !Active(nodes, Past(Initial(rt), Size(b), o));
    StaysStopped(nodes, inc, Initial(rt), n, o.steps);
  }

  /** The time left in timers[0] is that of the unrolled program. */
  lemma TimeIsUnrolled(b: Block, tail: seq<Node>, inc: seq<real>, rt: Vars, n: nat)
    requires |inc| == DELAYS && Fits(b, 1, true) && Tail(tail) && Clean(b, {})
    requires !Active(Flatten(b) + tail, Turns(Flatten(b) + tail, inc, Initial(rt), n))
    ensures var e := Turns(Flatten(b) + tail, inc, Initial(rt), n);
            |e.frames| == 1 && e.frames[0].timer == Full(b, inc, rt).time && e.frames[0].rcnt == 1
  {
    hide Fits, Clean, Turns, Flatten, Run, Full;
    StopsWithRun(b, tail, inc, rt, n);
    RunIsFull(b, inc, rt, rt, {});
  }

  lemma LoopAlone(b: Block, inc: seq<real>, rt: Vars)
    requires |inc| == DELAYS && b.Loop? && b.rest.Done?
    ensures var (rt1, n) := EnterLoop(b.start, rt);
            && Run(b, inc, rt).time == Passes(b.body, b.ctr, n, false, inc, rt1).time
            && Full(b, inc, rt).time == FullPasses(b.body, b.ctr, n, inc, rt1).time
  {
    hide EnterLoop, Passes, FullPasses;
    assert FrontOut(b, inc, rt) == LoopOut(b.start, b.body, b.ctr, inc, rt);
  }
}
