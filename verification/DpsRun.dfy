/** simulate_dps_code over a well-nested list takes exactly the turns, and leaves exactly the time
    and variables, that Run says. */
module DpsRun {
  import opened DpsNodes
  import opened DpsBlocks

  // ----- single nodes -----------------------------------------------------------------------------------

  lemma LeafGoes(nodes: seq<Node>, inc: seq<real>, s: Sim, n: Node)
    requires |inc| == DELAYS && ValidSim(s) && LeafNode(n) && NodeAt(nodes, s.pc, n)
    ensures Goes(nodes, inc, s, 1, Past(s, 1, LeafOut(n, inc, s.rt)))
  {
    hide Scale;
    OneTurn(nodes, inc, s);
    var e := Past(s, 1, LeafOut(n, inc, s.rt));
    match n
    case Timed(width) => assert Turn(nodes, inc, s).frames == e.frames;
    case IncDly(v, slot) => assert Turn(nodes, inc, s).frames == e.frames;
    case Rvop(_, _, _, _) => assert s.frames == e.frames;
    case SetVal(_, _) => assert s.frames == e.frames;
  }

  /** Inside a loop entered at node s.pc. */
  function Entered(s: Sim, n: int, rt: Vars): Sim {
    s.(frames := s.frames + [Frame(0.0, n, false, s.pc)], rt := rt, pc := s.pc + 1)
  }

  lemma EnterGoes(nodes: seq<Node>, inc: seq<real>, s: Sim, start: Node)
    requires |inc| == DELAYS && ValidSim(s) && LoopStart(start) && NodeAt(nodes, s.pc, start) && |s.frames| < MAXLEVEL
    ensures Goes(nodes, inc, s, 1, Entered(s, EnterLoop(start, s.rt).1, EnterLoop(start, s.rt).0))
  {
    OneTurn(nodes, inc, s);
  }

  /** The level is left with its time handed down, past a body of k nodes and its end. */
  function Left(s: Sim, k: nat, time: real, rt: Vars): Sim
    requires |s.frames| >= 2
  {
    var below := s.(frames := s.frames[..|s.frames| - 1]);
    AddTime(below, time).(pc := s.pc + k + 1, rt := rt)
  }

  lemma LeaveGoes(nodes: seq<Node>, inc: seq<real>, s: Sim, ctr: int)
    requires |inc| == DELAYS && ValidSim(s) && NodeAt(nodes, s.pc, LoopEnd(ctr))
    requires |s.frames| >= 2 && Top(s).rcnt >= 1 && (Top(s).rerun ==> Top(s).rcnt == 1)
    ensures Goes(nodes, inc, s, 1, Left(s, 0, Scale(Top(s).rcnt, Top(s).timer), s.rt))
  {
    hide Scale;
    OneTurn(nodes, inc, s);
    assert (if Top(s).rcnt < 1 then 1 else Top(s).rcnt) == Top(s).rcnt;
    assert EndLoop(s, ctr) == PopLoop(s).(pc := s.pc + 1);
  }

  lemma AgainGoes(nodes: seq<Node>, inc: seq<real>, s: Sim, ctr: int)
    requires |inc| == DELAYS && ValidSim(s) && NodeAt(nodes, s.pc, LoopEnd(ctr))
    requires Top(s).rerun && Top(s).rcnt > 1 && Top(s).start >= 0
    ensures Goes(nodes, inc, s, 1, Repeat(s, ctr))
  {
    OneTurn(nodes, inc, s);
  }

  /** Back at the loop's first node, with one pass fewer to go. */
  function Repeat(s: Sim, ctr: int): (r: Sim)
    requires ValidSim(s) && Top(s).start >= 0
    ensures ValidSim(r)
  {
    var n := Top(s).rcnt - 1;
    WithTop(s, Top(s).(rcnt := n)).(rt := Set(s.rt, ctr, n), pc := Top(s).start + 1)
  }

  // ----- branches -----------------------------------------------------------------------------------------

  predicate Plain(n: Node) {
    !TestNode(n) && n != ElseNz && n != EndIf
  }

  lemma SkipPlain(nodes: seq<Node>, i: nat, n: Node, level: nat, wantElse: bool)
    requires NodeAt(nodes, i, n) && Plain(n)
    ensures Skip(nodes, i, level, wantElse) == Skip(nodes, i + 1, level, wantElse)
  {
  }

  lemma SkipTest(nodes: seq<Node>, i: nat, n: Node, level: nat, wantElse: bool)
    requires NodeAt(nodes, i, n) && TestNode(n)
    ensures Skip(nodes, i, level, wantElse) == Skip(nodes, i + 1, level + 1, wantElse)
  {
  }

  lemma SkipElse(nodes: seq<Node>, i: nat, level: nat, wantElse: bool)
    requires NodeAt(nodes, i, ElseNz)
    ensures Skip(nodes, i, level + 1, wantElse) == Skip(nodes, i + 1, level + 1, wantElse)
    ensures Skip(nodes, i, 0, true) == i
  {
  }

  lemma SkipEnd(nodes: seq<Node>, i: nat, level: nat, wantElse: bool)
    requires NodeAt(nodes, i, EndIf)
    ensures Skip(nodes, i, level + 1, wantElse) == Skip(nodes, i + 1, level, wantElse)
    ensures Skip(nodes, i, 0, wantElse) == i
  {
  }

  /** The search of dps_if_stmt runs over a block as if it were not there. */
  lemma {:induction false} SkipBlock(nodes: seq<Node>, i: nat, b: Block, levels: nat, par: bool, level: nat,
                                     wantElse: bool)
    requires Fits(b, levels, par) && At(nodes, i, b)
    ensures Skip(nodes, i, level, wantElse) == Skip(nodes, i + Size(b), level, wantElse)
    decreases b, 1
  {
    hide Skip, FrontFits, FrontAt, FrontSize;
    if !b.Done? {
      SkipFront(nodes, i, b, levels, par, level, wantElse);
      SkipBlock(nodes, i + FrontSize(b), b.rest, levels, par, level, wantElse);
    }
  }

  lemma {:induction false} SkipFront(nodes: seq<Node>, i: nat, b: Block, levels: nat, par: bool, level: nat,
                                     wantElse: bool)
    requires !b.Done? && FrontFits(b, levels, par) && FrontAt(nodes, i, b)
    ensures Skip(nodes, i, level, wantElse) == Skip(nodes, i + FrontSize(b), level, wantElse)
    decreases b, 0, 1
  {
    hide Skip, NodeAt, ChannelsFit, ChannelsAt, ChannelsSize, Fits, At, Size;
    match b
    case Leaf(node, _) => SkipPlain(nodes, i, node, level, wantElse);
    case Loop(start, body, ctr, _) =>
      SkipPlain(nodes, i, start, level, wantElse);
      SkipBlock(nodes, i + 1, body, levels + 1, par, level, wantElse);
      SkipPlain(nodes, i + 1 + Size(body), LoopEnd(ctr), level, wantElse);
    case If(_, _, _, _, _) => SkipIf(nodes, i, b, levels, par, level, wantElse);
    case Par(chans, _) =>
      SkipChannels(nodes, i, chans, levels + 1, {}, level, wantElse);
      SkipPlain(nodes, i + ChannelsSize(chans), ParallelEnd, level, wantElse);
  }

  lemma {:induction false} SkipIf(nodes: seq<Node>, i: nat, b: Block, levels: nat, par: bool, level: nat,
                                  wantElse: bool)
    requires b.If? && FrontFits(b, levels, par) && FrontAt(nodes, i, b)
    ensures Skip(nodes, i, level, wantElse) == Skip(nodes, i + FrontSize(b), level, wantElse)
    decreases b, 0, 0
  {
    hide Skip, NodeAt, ChannelsFit, ChannelsAt, ChannelsSize, Fits, At, Size;
    SkipTest(nodes, i, b.test, level, wantElse);
    SkipBlock(nodes, i + 1, b.thn, levels, par, level + 1, wantElse);
    if b.hasElse {
      SkipElse(nodes, i + 1 + Size(b.thn), level, wantElse);
      SkipBlock(nodes, i + 2 + Size(b.thn), b.els, levels, par, level + 1, wantElse);
    }
    SkipEnd(nodes, i + FrontSize(b) - 1, level, wantElse);
  }

  lemma {:induction false} SkipChannels(nodes: seq<Node>, i: nat, chans: Channels, levels: nat, used: set<int>,
                                        level: nat, wantElse: bool)
    requires ChannelsFit(chans, levels, used) && ChannelsAt(nodes, i, chans)
    ensures Skip(nodes, i, level, wantElse) == Skip(nodes, i + ChannelsSize(chans), level, wantElse)
    decreases chans, 1
  {
    hide Skip, NodeAt, Fits, At, Size;
    match chans
    case NoChannels =>
    case Channel(chan, body, more) =>
      SkipPlain(nodes, i, ParallelStart(chan), level, wantElse);
      SkipBlock(nodes, i + 1, body, levels, false, level, wantElse);
      SkipChannels(nodes, i + 1 + Size(body), more, levels, used + {chan}, level, wantElse);
  }

  // ----- whole blocks ---------------------------------------------------------------------------------------

  lemma PastNothing(s: Sim)
    requires ValidSim(s)
    ensures Past(s, 0, Out(0.0, false, s.rt, 0)) == s
  {
    assert Past(s, 0, Out(0.0, false, s.rt, 0)).frames == s.frames;
  }

  lemma PastReady(nodes: seq<Node>, inc: seq<real>, s: Sim, b: Block, par: bool, o: Out)
    requires Ready(nodes, inc, s, b, par) && !b.Done?
    ensures FrontReady(nodes, inc, s, b, par)
    ensures Ready(nodes, inc, Past(s, FrontSize(b), o), b.rest, par)
    ensures Size(b) == FrontSize(b) + Size(b.rest)
    ensures Past(s, FrontSize(b), o).rt == o.rt
  {
    hide FrontFits, FrontAt, FrontSize;
  }

  /** The simulator runs over a block as Run says, and stops just past it. */
  lemma {:induction false} BlockGoes(nodes: seq<Node>, inc: seq<real>, s: Sim, b: Block, par: bool)
    requires Ready(nodes, inc, s, b, par)
    ensures Goes(nodes, inc, s, Run(b, inc, s.rt).steps, Past(s, Size(b), Run(b, inc, s.rt)))
    decreases b, 2
  {
    hide Goes, Past, Fits, At, FrontOut, FrontSize, ValidSim, Idle;
    if b.Done? {
      PastNothing(s);
      NoTurn(nodes, inc, s);
    } else {
      hide Size;
      var a := FrontOut(b, inc, s.rt);
      var m := Past(s, FrontSize(b), a);
      PastReady(nodes, inc, s, b, par, a);
      FrontGoes(nodes, inc, s, b, par);
      BlockGoes(nodes, inc, m, b.rest, par);
      var r := Run(b.rest, inc, a.rt);
      PastThen(s, FrontSize(b), a, Size(b.rest), r);
      GoesThen(nodes, inc, s, a.steps, m, r.steps, Past(m, Size(b.rest), r));
    }
  }

  lemma {:induction false} FrontGoes(nodes: seq<Node>, inc: seq<real>, s: Sim, b: Block, par: bool)
    requires FrontReady(nodes, inc, s, b, par)
    ensures Goes(nodes, inc, s, FrontOut(b, inc, s.rt).steps, Past(s, FrontSize(b), FrontOut(b, inc, s.rt)))
    decreases b, 1
  {
    hide Goes, Past, ValidSim, Idle;
    match b
    case Leaf(node, _) => LeafGoes(nodes, inc, s, node);
    case Loop(_, _, _, _) => LoopGoes(nodes, inc, s, b, par);
    case If(_, _, _, _, _) => IfGoes(nodes, inc, s, b, par);
    case Par(_, _) => ParGoes(nodes, inc, s, b);
  }

  // ----- loops ----------------------------------------------------------------------------------------------

  /** At the first node of a loop body, with Top(s).rcnt passes to go. */
  ghost predicate AtPass(nodes: seq<Node>, inc: seq<real>, s: Sim, body: Block, ctr: int, par: bool) {
    && Ready(nodes, inc, s, body, par) && |s.frames| >= 2
    && NodeAt(nodes, s.pc + Size(body), LoopEnd(ctr))
    && Top(s).rcnt >= 1 && Top(s).start >= 0 && Top(s).start + 1 == s.pc
    && (Top(s).rerun || Top(s).timer == 0.0)
  }

  lemma EnteredAtPass(nodes: seq<Node>, inc: seq<real>, s: Sim, b: Block, par: bool, n: int, rt: Vars)
    requires b.Loop? && FrontReady(nodes, inc, s, b, par) && n >= 1
    ensures |s.frames| < MAXLEVEL && LoopStart(b.start) && NodeAt(nodes, s.pc, b.start)
    ensures var m := Entered(s, n, rt);
            && AtPass(nodes, inc, m, b.body, b.ctr, par)
            && Top(m).rcnt == n && !Top(m).rerun && Top(m).timer == 0.0 && m.rt == rt
  {
  }

  lemma LeftEntered(s: Sim, n: int, rt: Vars, k: nat, p: Out)
    requires ValidSim(s) && !p.rerun
    ensures Left(Entered(s, n, rt), k, p.time, p.rt) == Past(s, k + 2, Then(Out(0.0, false, rt, 1), p))
  {
    var e := Entered(s, n, rt);
    assert e.frames[..|e.frames| - 1] == s.frames;
  }

  lemma {:induction false} LoopGoes(nodes: seq<Node>, inc: seq<real>, s: Sim, b: Block, par: bool)
    requires b.Loop? && FrontReady(nodes, inc, s, b, par)
    ensures Goes(nodes, inc, s, FrontOut(b, inc, s.rt).steps, Past(s, FrontSize(b), FrontOut(b, inc, s.rt)))
    decreases b, 0
  {
    hide Goes, Past, Fits, At, ValidSim, Idle, EnterLoop, Left, Passes, NodeAt, Size, AtPass, Entered, Top;
    var (rt, n) := EnterLoop(b.start, s.rt);
    var m := Entered(s, n, rt);
    var p := Passes(b.body, b.ctr, n, false, inc, rt);
    EnteredAtPass(nodes, inc, s, b, par, n, rt);
    EnterGoes(nodes, inc, s, b.start);
    PassesGo(nodes, inc, m, b.body, b.ctr, par);
    LeftEntered(s, n, rt, Size(b.body), p);
    GoesThen(nodes, inc, s, 1, m, p.steps, Left(m, Size(b.body), p.time, p.rt));
  }

  lemma RepeatedAtPass(nodes: seq<Node>, inc: seq<real>, s: Sim, body: Block, ctr: int, par: bool, p: Out)
    requires AtPass(nodes, inc, s, body, ctr, par) && Top(s).rcnt > 1
    requires (Top(s).rerun || p.rerun)
    ensures var r := Repeat(Past(s, Size(body), p), ctr);
            && AtPass(nodes, inc, r, body, ctr, par) && |r.frames| == |s.frames|
            && Top(r).rcnt == Top(s).rcnt - 1 && Top(r).rerun && Top(r).timer == Top(s).timer + p.time
            && r.rt == Set(p.rt, ctr, Top(s).rcnt - 1)
  {
    hide Fits, At, NodeAt, Size;
  }

  lemma LeftPast(s: Sim, k: nat, p: Out, time: real)
    requires ValidSim(s) && |s.frames| >= 2
    ensures |Past(s, k, p).frames| >= 2
    ensures Left(Past(s, k, p), 0, time, p.rt) == Left(s, k, time, p.rt)
  {
    var m := Past(s, k, p);
    assert m.frames[..|m.frames| - 1] == s.frames[..|s.frames| - 1];
  }

  lemma LeftRepeat(s: Sim, k: nat, p: Out, ctr: int, time: real, rt: Vars)
    requires ValidSim(s) && |s.frames| >= 2 && Top(s).start >= 0 && Top(s).start + 1 == s.pc
    ensures |Repeat(Past(s, k, p), ctr).frames| >= 2
    ensures Left(Repeat(Past(s, k, p), ctr), k, time, rt) == Left(s, k, time, rt)
  {
    var m := Repeat(Past(s, k, p), ctr);
    assert m.frames[..|m.frames| - 1] == s.frames[..|s.frames| - 1];
  }

  lemma ScaleLast(n: int, t: real, p: real)
    requires n == 1 || t == 0.0
    ensures Scale(n, t + p) == t + Scale(n, p)
  {
  }

  lemma {:induction false} PassesGo(nodes: seq<Node>, inc: seq<real>, s: Sim, body: Block, ctr: int, par: bool)
    requires AtPass(nodes, inc, s, body, ctr, par)
    ensures var o := Passes(body, ctr, Top(s).rcnt, Top(s).rerun, inc, s.rt);
            Goes(nodes, inc, s, o.steps, Left(s, Size(body), Top(s).timer + o.time, o.rt))
    decreases body, Top(s).rcnt + 2
  {
    hide Goes, Fits, At, Idle, Size, NodeAt, Scale, Past, Repeat, Left, Run;
    var n, k := Top(s).rcnt, Size(body);
    var p := Run(body, inc, s.rt);
    var m := Past(s, k, p);
    BlockGoes(nodes, inc, s, body, par);
    PastTop(s, k, p);
    if (Top(s).rerun || p.rerun) && n > 1 {
      var r := Repeat(m, ctr);
      RepeatedAtPass(nodes, inc, s, body, ctr, par, p);
      AgainGoes(nodes, inc, m, ctr);
      GoesThen(nodes, inc, s, p.steps, m, 1, r);
      PassesGo(nodes, inc, r, body, ctr, par);
      var q := Passes(body, ctr, n - 1, true, inc, r.rt);
      LeftRepeat(s, k, p, ctr, Top(r).timer + q.time, q.rt);
      GoesThen(nodes, inc, s, p.steps + 1, r, q.steps, Left(r, k, Top(r).timer + q.time, q.rt));
    } else {
      LeaveGoes(nodes, inc, m, ctr);
      LeftPast(s, k, p, Scale(n, Top(m).timer));
      ScaleLast(n, Top(s).timer, p.time);
      GoesThen(nodes, inc, s, p.steps, m, 1, Left(m, 0, Scale(n, Top(m).timer), p.rt));
    }
  }

  lemma PastTop(s: Sim, k: nat, p: Out)
    requires ValidSim(s)
    ensures var m := Past(s, k, p);
            && |m.frames| == |s.frames| && m.pc == s.pc + k && m.rt == p.rt && m.chan == s.chan && m.times == s.times
            && Top(m) == Top(s).(timer := Top(s).timer + p.time, rerun := Top(s).rerun || p.rerun)
  {
  }

  // ----- branches ---------------------------------------------------------------------------------------------

  function Tested(nodes: seq<Node>, s: Sim, test: Node): Sim {
    var (taken, rt) := Taken(test, s.rt);
    s.(rt := rt, pc := if taken then s.pc + 1 else Skip(nodes, s.pc + 1, 0, true) + 1)
  }

  lemma TestGoes(nodes: seq<Node>, inc: seq<real>, s: Sim, test: Node)
    requires |inc| == DELAYS && ValidSim(s) && TestNode(test) && NodeAt(nodes, s.pc, test)
    ensures Goes(nodes, inc, s, 1, Tested(nodes, s, test))
  {
    hide Skip;
    OneTurn(nodes, inc, s);
  }

  lemma ElseGoes(nodes: seq<Node>, inc: seq<real>, s: Sim)
    requires |inc| == DELAYS && ValidSim(s) && NodeAt(nodes, s.pc, ElseNz)
    ensures Goes(nodes, inc, s, 1, s.(pc := Skip(nodes, s.pc + 1, 0, false) + 1))
  {
    hide Skip;
    OneTurn(nodes, inc, s);
  }

  lemma EndIfGoes(nodes: seq<Node>, inc: seq<real>, s: Sim)
    requires |inc| == DELAYS && ValidSim(s) && NodeAt(nodes, s.pc, EndIf)
    ensures Goes(nodes, inc, s, 1, s.(pc := s.pc + 1))
  {
    OneTurn(nodes, inc, s);
  }

  /** Where the two searches of a branch end. */
  lemma BranchEnds(nodes: seq<Node>, i: nat, b: Block, levels: nat, par: bool)
    requires b.If? && FrontFits(b, levels, par) && FrontAt(nodes, i, b)
    ensures Skip(nodes, i + 1, 0, true) == i + 1 + Size(b.thn)
    ensures b.hasElse ==> Skip(nodes, i + 2 + Size(b.thn), 0, false) == i + FrontSize(b) - 1
  {
    hide Skip, NodeAt, Fits, At, Size;
    SkipBlock(nodes, i + 1, b.thn, levels, par, 0, true);
    if b.hasElse {
      SkipElse(nodes, i + 1 + Size(b.thn), 0, true);
      SkipBlock(nodes, i + 2 + Size(b.thn), b.els, levels, par, 0, false);
    }
    SkipEnd(nodes, i + FrontSize(b) - 1, 0, b.hasElse);
    SkipEnd(nodes, i + FrontSize(b) - 1, 0, !b.hasElse);
  }

  /** Running a block from another place of the same state. */
  lemma PastMoved(s: Sim, rt: Vars, i: nat, k: nat, r: Out, size: nat, steps: nat)
    requires ValidSim(s)
    ensures Past(s.(rt := rt, pc := i), k, r).(pc := s.pc + size) == Past(s, size, r.(steps := steps))
  {
  }

  lemma {:induction false} TakenGoes(nodes: seq<Node>, inc: seq<real>, s: Sim, b: Block, par: bool)
    requires b.If? && FrontReady(nodes, inc, s, b, par) && Taken(b.test, s.rt).0
    ensures Goes(nodes, inc, s, FrontOut(b, inc, s.rt).steps, Past(s, FrontSize(b), FrontOut(b, inc, s.rt)))
    decreases b, 0, 0
  {
    hide Goes, Past, ChannelsFit, ChannelsAt, Taken, Skip, Run, NodeAt;
    var rt := Taken(b.test, s.rt).1;
    var t := s.(rt := rt, pc := s.pc + 1);
    var r := Run(b.thn, inc, rt);
    TestGoes(nodes, inc, s, b.test);
    BlockGoes(nodes, inc, t, b.thn, par);
    var m := Past(t, Size(b.thn), r);
    PastTop(t, Size(b.thn), r);
    GoesThen(nodes, inc, s, 1, t, r.steps, m);
    BranchEnds(nodes, s.pc, b, |s.frames|, par);
    if b.hasElse { ElseGoes(nodes, inc, m); } else { EndIfGoes(nodes, inc, m); }
    PastMoved(s, rt, s.pc + 1, Size(b.thn), r, FrontSize(b), r.steps + 2);
    GoesThen(nodes, inc, s, 1 + r.steps, m, 1, m.(pc := s.pc + FrontSize(b)));
  }

  lemma {:induction false} ElsewiseGoes(nodes: seq<Node>, inc: seq<real>, s: Sim, b: Block, par: bool)
    requires b.If? && FrontReady(nodes, inc, s, b, par) && !Taken(b.test, s.rt).0 && b.hasElse
    ensures Goes(nodes, inc, s, FrontOut(b, inc, s.rt).steps, Past(s, FrontSize(b), FrontOut(b, inc, s.rt)))
    decreases b, 0, 0
  {
    hide Goes, Past, ChannelsFit, ChannelsAt, Taken, Skip, Run, NodeAt;
    var rt := Taken(b.test, s.rt).1;
    var t := s.(rt := rt, pc := s.pc + 2 + Size(b.thn));
    var r := Run(b.els, inc, rt);
    BranchEnds(nodes, s.pc, b, |s.frames|, par);
    TestGoes(nodes, inc, s, b.test);
    BlockGoes(nodes, inc, t, b.els, par);
    var m := Past(t, Size(b.els), r);
    PastTop(t, Size(b.els), r);
    GoesThen(nodes, inc, s, 1, t, r.steps, m);
    EndIfGoes(nodes, inc, m);
    PastMoved(s, rt, t.pc, Size(b.els), r, FrontSize(b), r.steps + 2);
    GoesThen(nodes, inc, s, 1 + r.steps, m, 1, m.(pc := s.pc + FrontSize(b)));
  }

  lemma {:induction false} IfGoes(nodes: seq<Node>, inc: seq<real>, s: Sim, b: Block, par: bool)
    requires b.If? && FrontReady(nodes, inc, s, b, par)
    ensures Goes(nodes, inc, s, FrontOut(b, inc, s.rt).steps, Past(s, FrontSize(b), FrontOut(b, inc, s.rt)))
    decreases b, 0, 1
  {
    if Taken(b.test, s.rt).0 { TakenGoes(nodes, inc, s, b, par); }
    else if b.hasElse { ElsewiseGoes(nodes, inc, s, b, par); }
    else { NeitherGoes(nodes, inc, s, b, par); }
  }

  lemma NeitherGoes(nodes: seq<Node>, inc: seq<real>, s: Sim, b: Block, par: bool)
    requires b.If? && FrontReady(nodes, inc, s, b, par) && !Taken(b.test, s.rt).0 && !b.hasElse
    ensures Goes(nodes, inc, s, FrontOut(b, inc, s.rt).steps, Past(s, FrontSize(b), FrontOut(b, inc, s.rt)))
  {
    hide Goes, ChannelsFit, ChannelsAt, Taken, Skip, Run, NodeAt;
    var rt := Taken(b.test, s.rt).1;
    BranchEnds(nodes, s.pc, b, |s.frames|, par);
    TestGoes(nodes, inc, s, b.test);
    assert FrontOut(b, inc, s.rt) == Out(0.0, false, rt, 1);
    assert Past(s, FrontSize(b), Out(0.0, false, rt, 1)).frames == s.frames;
  }

  // ----- parallel sections --------------------------------------------------------------------------------------

  lemma {:induction false} LongestAfter(times: seq<real>, n: nat, c: nat, t: real)
    requires n <= |times| && 0 < c < |times| && times[c] == 0.0
    ensures Longest(times, n) >= 0.0
    ensures Longest(times[c := t], n) == if c < n then Larger(Longest(times, n), t) else Longest(times, n)
  {
    if n > 1 { LongestAfter(times, n - 1, c, t); }
  }

  lemma {:induction false} LongestOfNone(n: nat)
    requires n <= TOTALCH
    ensures Longest(seq(TOTALCH, _ => 0.0), n) == 0.0
  {
    if n > 1 { LongestOfNone(n - 1); }
  }

  /** The channels still to come have no time yet, and those closed last `longest`. */
  ghost predicate Recorded(times: seq<real>, used: set<int>, longest: real) {
    && |times| == TOTALCH && times[0] == 0.0
    && Longest(times, TOTALCH) == longest
    && forall c :: 0 < c < TOTALCH && c !in used ==> times[c] == 0.0
  }

  lemma RecordChannel(times: seq<real>, used: set<int>, longest: real, c: int, t: real)
    requires Recorded(times, used, longest) && 0 < c < TOTALCH && c !in used
    ensures Recorded(times[c := t], used + {c}, Larger(longest, t))
  {
    hide Longest;
    LongestAfter(times, TOTALCH, c, t);
  }

  /** On the way through a parallel section, `base` being the levels outside it. */
  ghost predicate AtChannels(nodes: seq<Node>, inc: seq<real>, s: Sim, chans: Channels, used: set<int>, longest: real) {
    && |inc| == DELAYS && ValidSim(s)
    && |CloseChannel(s).frames| < MAXLEVEL && ChannelsFit(chans, |CloseChannel(s).frames| + 1, used)
    && Recorded(CloseChannel(s).times, used, longest)
    && ChannelsAt(nodes, s.pc, chans) && NodeAt(nodes, s.pc + ChannelsSize(chans), ParallelEnd)
  }

  lemma CloseKeeps(s: Sim)
    requires ValidSim(s)
    ensures CloseChannel(s).rt == s.rt && CloseChannel(s).pc == s.pc
  {
  }

  function Joined(s: Sim, size: nat, o: Out): (r: Sim)
    requires ValidSim(s)
    ensures ValidSim(r)
  {
    AddTime(CloseChannel(s), o.time).(pc := s.pc + size, rt := o.rt, chan := 0, times := seq(TOTALCH, _ => 0.0))
  }

  lemma JoinGoes(nodes: seq<Node>, inc: seq<real>, s: Sim, used: set<int>, longest: real)
    requires AtChannels(nodes, inc, s, NoChannels, used, longest)
    ensures Goes(nodes, inc, s, 1, Joined(s, 1, ChannelsOut(NoChannels, inc, s.rt, longest)))
  {
    hide CloseChannel, Longest;
    OneTurn(nodes, inc, s);
    CloseKeeps(s);
    assert NoTimes(CloseChannel(s).times) == seq(TOTALCH, _ => 0.0);
  }

  /** The state inside channel c. */
  function Opened(s: Sim, c: int): Sim
    requires ValidSim(s)
  {
    var closed := CloseChannel(s);
    closed.(frames := closed.frames + [Frame(0.0, 1, false, closed.pc)], chan := c, pc := s.pc + 1)
  }

  lemma OpenGoes(nodes: seq<Node>, inc: seq<real>, s: Sim, c: int)
    requires |inc| == DELAYS && ValidSim(s) && NodeAt(nodes, s.pc, ParallelStart(c)) && 0 < c < TOTALCH
    requires |CloseChannel(s).frames| < MAXLEVEL
    ensures Goes(nodes, inc, s, 1, Opened(s, c))
  {
    OneTurn(nodes, inc, s);
  }

  lemma ClosedAgain(s: Sim, c: int, k: nat, p: Out)
    requires ValidSim(s) && 0 < c < TOTALCH && |CloseChannel(s).frames| < MAXLEVEL
    ensures ValidSim(Opened(s, c))
    ensures var m := CloseChannel(Past(Opened(s, c), k, p));
            m.frames == CloseChannel(s).frames && m.times == CloseChannel(s).times[c := p.time]
  {
    hide CloseChannel;
    var o := Opened(s, c);
    var m := Past(o, k, p);
    PastTop(o, k, p);
    assert Top(o) == Frame(0.0, 1, false, CloseChannel(s).pc);
    CloseOpen(m);
    assert m.frames[..|m.frames| - 1] == CloseChannel(s).frames;
  }

  lemma CloseOpen(s: Sim)
    requires ValidSim(s) && 0 < s.chan < TOTALCH && |s.frames| >= 2
    ensures CloseChannel(s) == s.(times := s.times[s.chan := Top(s).timer], frames := s.frames[..|s.frames| - 1])
  {
  }

  lemma {:induction false} ChannelsGo(nodes: seq<Node>, inc: seq<real>, s: Sim, chans: Channels, used: set<int>,
                                      longest: real)
    requires AtChannels(nodes, inc, s, chans, used, longest)
    ensures var o := ChannelsOut(chans, inc, s.rt, longest);
            Goes(nodes, inc, s, o.steps, Joined(s, ChannelsSize(chans) + 1, o))
    decreases chans
  {
    hide Goes, Past, CloseChannel, Run, Joined, Fits, At, Size, NodeAt, Recorded, Opened;
    match chans
    case NoChannels => JoinGoes(nodes, inc, s, used, longest);
    case Channel(c, body, more) =>
      var t := Opened(s, c);
      var p := Run(body, inc, s.rt);
      OpenedReady(nodes, inc, s, chans, used, longest);
      OpenGoes(nodes, inc, s, c);
      var m := Past(t, Size(body), p);
      BlockGoes(nodes, inc, t, body, false);
      GoesThen(nodes, inc, s, 1, t, p.steps, m);
      NextChannel(nodes, inc, s, chans, used, longest, p);
      ChannelsGo(nodes, inc, m, more, used + {c}, Larger(longest, p.time));
      var q := ChannelsOut(more, inc, p.rt, Larger(longest, p.time));
      JoinedMoved(s, m, 1 + Size(body), ChannelsSize(more) + 1, q.(steps := 1 + p.steps + q.steps));
      JoinedSteps(m, ChannelsSize(more) + 1, q, 1 + p.steps + q.steps);
      GoesThen(nodes, inc, s, 1 + p.steps, m, q.steps, Joined(m, ChannelsSize(more) + 1, q));
  }

  lemma OpenedReady(nodes: seq<Node>, inc: seq<real>, s: Sim, chans: Channels, used: set<int>, longest: real)
    requires chans.Channel? && AtChannels(nodes, inc, s, chans, used, longest)
    ensures Ready(nodes, inc, Opened(s, chans.chan), chans.body, false)
    ensures Opened(s, chans.chan).rt == s.rt
    ensures NodeAt(nodes, s.pc, ParallelStart(chans.chan)) && 0 < chans.chan < TOTALCH
  {
    hide Fits, At, Size, NodeAt, Recorded;
  }

  lemma NextChannel(nodes: seq<Node>, inc: seq<real>, s: Sim, chans: Channels, used: set<int>, longest: real, p: Out)
    requires chans.Channel? && AtChannels(nodes, inc, s, chans, used, longest)
    ensures ValidSim(Opened(s, chans.chan))
    ensures var m := Past(Opened(s, chans.chan), Size(chans.body), p);
            && m.rt == p.rt && m.pc == s.pc + 1 + Size(chans.body)
            && CloseChannel(m).frames == CloseChannel(s).frames
            && AtChannels(nodes, inc, m, chans.more, used + {chans.chan}, Larger(longest, p.time))
  {
    var c := chans.chan;
    ClosedAgain(s, c, Size(chans.body), p);
    PastTop(Opened(s, c), Size(chans.body), p);
    CloseKeeps(s);
    RecordChannel(CloseChannel(s).times, used, longest, c, p.time);
    hide Recorded, Past, CloseChannel, Fits, At, NodeAt;
  }

  lemma JoinedSteps(s: Sim, size: nat, o: Out, steps: nat)
    requires ValidSim(s)
    ensures Joined(s, size, o.(steps := steps)) == Joined(s, size, o)
  {
  }

  lemma JoinedMoved(s: Sim, m: Sim, k: nat, size: nat, o: Out)
    requires ValidSim(s) && ValidSim(m) && CloseChannel(m).frames == CloseChannel(s).frames && m.pc == s.pc + k
    ensures Joined(m, size, o) == Joined(s, k + size, o)
  {
    hide CloseChannel;
  }

  lemma IdleAtChannels(nodes: seq<Node>, inc: seq<real>, s: Sim, b: Block, o: Out)
    requires b.Par? && FrontReady(nodes, inc, s, b, true) && !o.rerun
    ensures AtChannels(nodes, inc, s, b.chans, {}, 0.0)
    ensures Joined(s, ChannelsSize(b.chans) + 1, o) == Past(s, FrontSize(b), o)
  {
    hide Longest, ChannelsAt, NodeAt, ChannelsFit;
    LongestOfNone(TOTALCH);
    assert CloseChannel(s) == s;
  }

  lemma {:induction false} ParGoes(nodes: seq<Node>, inc: seq<real>, s: Sim, b: Block)
    requires b.Par? && FrontReady(nodes, inc, s, b, true)
    ensures Goes(nodes, inc, s, FrontOut(b, inc, s.rt).steps, Past(s, FrontSize(b), FrontOut(b, inc, s.rt)))
    decreases b, 0
  {
    var o := ChannelsOut(b.chans, inc, s.rt, 0.0);
    IdleAtChannels(nodes, inc, s, b, o);
    ChannelsGo(nodes, inc, s, b.chans, {}, 0.0);
  }

  lemma DelayRuns(w: real, inc: seq<real>, rt: Vars)
    requires |inc| == DELAYS && w >= 0.0
    ensures Run(Leaf(Timed(w), Done), inc, rt) == Out(w, false, rt, 1)
    ensures forall levels: nat, par :: Fits(Leaf(Timed(w), Done), levels, par)
  {
    var b := Leaf(Timed(w), Done);
    assert FrontOut(b, inc, rt) == Out(w, false, rt, 1) && Run(Done, inc, rt) == Out(0.0, false, rt, 0);
    assert Run(b, inc, rt) == Then(FrontOut(b, inc, rt), Run(Done, inc, rt));
    forall levels: nat, par ensures Fits(b, levels, par) {
      assert FrontFits(b, levels, par) && Fits(Done, levels, par);
    }
  }

  /** Two delays on two channels take as long as the longer. */
  lemma TwoChannels(w: real, x: real, c: int, d: int, inc: seq<real>, rt: Vars)
    requires |inc| == DELAYS && 0 < c < 12 && 0 < d < 12 && c != d && w >= 0.0 && x >= 0.0
    ensures var b := Par(Channel(c, Leaf(Timed(w), Done), Channel(d, Leaf(Timed(x), Done), NoChannels)), Done);
            Fits(b, 1, true) && Run(b, inc, rt).time == if w > x then w else x
  {
    var one, two := Leaf(Timed(w), Done), Leaf(Timed(x), Done);
    var more, both := Channel(d, two, NoChannels), Channel(c, one, Channel(d, two, NoChannels));
    DelayRuns(w, inc, rt);
    DelayRuns(x, inc, rt);
    hide Run, Fits;
    assert ChannelsOut(NoChannels, inc, rt, Larger(Larger(0.0, w), x)).time == Larger(Larger(0.0, w), x);
    assert ChannelsOut(more, inc, rt, Larger(0.0, w)).time == Larger(Larger(0.0, w), x);
    assert ChannelsOut(both, inc, rt, 0.0).time == Larger(Larger(0.0, w), x);
    assert ChannelsFit(NoChannels, 2, {c, d});
    assert {} + {c} + {d} == {c, d} && ChannelsFit(more, 2, {} + {c});
    assert ChannelsFit(both, 2, {});
    ParAlone(both, inc, rt);
  }

  lemma ParAlone(chans: Channels, inc: seq<real>, rt: Vars)
    requires |inc| == DELAYS
    ensures Run(Par(chans, Done), inc, rt).time == ChannelsOut(chans, inc, rt, 0.0).time
    ensures ChannelsFit(chans, 2, {}) ==> Fits(Par(chans, Done), 1, true)
  {
    hide ChannelsOut, ChannelsFit;
    var b := Par(chans, Done);
    assert FrontOut(b, inc, rt) == ChannelsOut(chans, inc, rt, 0.0);
    assert Run(Done, inc, rt).time == 0.0 && Fits(Done, 1, true);
    assert Run(b, inc, rt) == Then(FrontOut(b, inc, rt), Run(Done, inc, FrontOut(b, inc, rt).rt));
    assert Run(Done, inc, FrontOut(b, inc, rt).rt).time == 0.0;
  }

  /** A hardware loop of one delay takes as often as long as its count, and one for none. */
  lemma LoopOfDelay(w: real, v: int, inc: seq<real>, rt: Vars)
    requires |inc| == DELAYS && w >= 0.0
    ensures var b, n := Loop(Hloop(v), Leaf(Timed(w), Done), 0, Done), Get(rt, v);
            Fits(b, 1, true) && Run(b, inc, rt).time == w * (if n < 1 then 1 else n) as real
  {
    var body := Leaf(Timed(w), Done);
    var b, n := Loop(Hloop(v), body, 0, Done), AtLeastOne(Get(rt, v));
    DelayRuns(w, inc, rt);
    assert Fits(body, 2, true) && FrontFits(b, 1, true) && Fits(Done, 1, true);
    assert Passes(body, 0, n, false, inc, rt).time == Scale(n, w);
    assert FrontOut(b, inc, rt).time == Scale(n, w);
    assert Run(b, inc, rt).time == FrontOut(b, inc, rt).time + 0.0;
  }
}
