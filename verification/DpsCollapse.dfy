/** When the time of a collapsed loop, one pass times the count, is the time of all its passes. */
module DpsCollapse {
  import opened DpsNodes
  import opened DpsBlocks
  import opened DpsTermination
  import opened DpsUnrolled
  import opened DpsExact

  /** The times of the passes that the unrolled loop makes, in order. */
  function PassTimes(body: Block, ctr: int, n: int, inc: seq<real>, rt: Vars): (ts: seq<real>)
    requires |inc| == DELAYS && n >= 1
    ensures |ts| == n
    decreases n
  {
    var p := Full(body, inc, rt);
    if n == 1 then [p.time] else [p.time] + PassTimes(body, ctr, n - 1, inc, Set(p.rt, ctr, n - 1))
  }

  function Sum(ts: seq<real>): real {
    if ts == [] then 0.0 else ts[0] + Sum(ts[1..])
  }

  lemma {:induction false} PassesAddUp(body: Block, ctr: int, n: int, inc: seq<real>, rt: Vars)
    requires |inc| == DELAYS && n >= 1
    ensures FullPasses(body, ctr, n, inc, rt).time == Sum(PassTimes(body, ctr, n, inc, rt))
    decreases n
  {
    hide Full, Set;
    var p := Full(body, inc, rt);
    if n == 1 {
      assert [p.time][1..] == [];
    } else {
      PassesAddUp(body, ctr, n - 1, inc, Set(p.rt, ctr, n - 1));
    }
  }

  lemma ScaleMore(n: nat, t: real)
    ensures Scale(n + 1, t) == Scale(n, t) + t && Scale(0, t) == 0.0
  {
  }

  /** Times that t bounds from one side add up to n times t just when they are all t. */
  lemma {:induction false} SumAgainst(ts: seq<real>, t: real)
    ensures (forall k :: 0 <= k < |ts| ==> ts[k] <= t) ==> Sum(ts) <= Scale(|ts|, t)
    ensures (forall k :: 0 <= k < |ts| ==> ts[k] >= t) ==> Sum(ts) >= Scale(|ts|, t)
    ensures (forall k :: 0 <= k < |ts| ==> ts[k] <= t) || (forall k :: 0 <= k < |ts| ==> ts[k] >= t) ==>
              (Sum(ts) == Scale(|ts|, t) <==> forall k :: 0 <= k < |ts| ==> ts[k] == t)
  {
    hide Scale;
    if ts == [] {
      ScaleMore(0, t);
    } else {
      var rest := ts[1..];
      SumAgainst(rest, t);
      ScaleMore(|rest|, t);
      assert forall k :: 0 <= k < |rest| ==> rest[k] == ts[k + 1];
      assert forall k :: 1 <= k < |ts| ==> ts[k] == rest[k - 1];
    }
  }

  /** A loop whose first pass asks for no rerun, and whose body's own times read nothing that two runs
      from the same variables could differ in. */
  predicate Collapses(body: Block, inc: seq<real>, rt: Vars)
    requires |inc| == DELAYS
  {
    !Run(body, inc, rt).rerun && Clean(body, {})
  }

  lemma CollapsedTime(body: Block, ctr: int, n: int, inc: seq<real>, rt: Vars)
    requires |inc| == DELAYS && n >= 1 && Collapses(body, inc, rt)
    ensures Passes(body, ctr, n, false, inc, rt).time == Scale(n, PassTimes(body, ctr, n, inc, rt)[0])
  {
    hide Run, Full, Clean, Dirt;
    assert Agree(rt, rt, {});
    RunIsFull(body, inc, rt, rt, {});
  }

  /** The collapsed time is right just when the passes take together n times what the first takes.  With
      no pass longer than the first it is never too short, with none shorter never too long, and in either
      case right just when all passes take the same time. */
  lemma CollapsedExactly(body: Block, ctr: int, n: int, inc: seq<real>, rt: Vars)
    requires |inc| == DELAYS && n >= 1 && Collapses(body, inc, rt)
    ensures var ts, o := PassTimes(body, ctr, n, inc, rt), Passes(body, ctr, n, false, inc, rt).time;
            var g := FullPasses(body, ctr, n, inc, rt).time;
            && (o == g <==> Sum(ts) == Scale(n, ts[0]))
            && ((forall k :: 0 <= k < n ==> ts[k] <= ts[0])
               ==> o >= g && (o == g <==> forall k :: 0 <= k < n ==> ts[k] == ts[0]))
            && ((forall k :: 0 <= k < n ==> ts[k] >= ts[0])
               ==> o <= g && (o == g <==> forall k :: 0 <= k < n ==> ts[k] == ts[0]))
  {
    hide Passes, FullPasses, PassTimes, Sum, Scale, Collapses;
    var ts := PassTimes(body, ctr, n, inc, rt);
    CollapsedTime(body, ctr, n, inc, rt);
    PassesAddUp(body, ctr, n, inc, rt);
    SumAgainst(ts, ts[0]);
  }

  // ----- whole programs -----------------------------------------------------------------------------------

  /** No way through the block asks its own level for another pass. */
  predicate NeverReruns(b: Block)
    decreases b
  {
    match b
    case Done => true
    case Leaf(node, rest) => !(node.IncDly? && node.slot < DELAYS) && NeverReruns(rest)
    case Loop(_, _, _, rest) => NeverReruns(rest)
    case If(_, thn, _, els, rest) => NeverReruns(thn) && NeverReruns(els) && NeverReruns(rest)
    case Par(_, rest) => NeverReruns(rest)
  }

  lemma {:induction false} NoRerun(b: Block, inc: seq<real>, rt: Vars)
    requires |inc| == DELAYS && NeverReruns(b)
    ensures !Run(b, inc, rt).rerun
    decreases b
  {
    hide Taken;
    if !b.Done? {
      if b.If? {
        NoRerun(b.thn, inc, Taken(b.test, rt).1);
        NoRerun(b.els, inc, Taken(b.test, rt).1);
        assert FrontOut(b, inc, rt) == IfOut(b, inc, rt);
      }
      NoRerun(b.rest, inc, FrontOut(b, inc, rt).rt);
    }
  }

  /** Like Clean, but a collapsed loop may depend on what its own passes leave: only its first pass must
      read nothing that may differ. */
  predicate Open(b: Block, d: set<int>)
    decreases b, 2
  {
    b.Done? || (FrontOpen(b, d) && Open(b.rest, OpenFrontDirt(b, d)))
  }

  predicate FrontOpen(b: Block, d: set<int>)
    requires !b.Done?
    decreases b, 1
  {
    || FrontClean(b, d)
    || (b.Loop? && OpenLoop(b, d))
    || (b.If? && TestClean(b.test, d) && Open(b.thn, TestDirt(b.test, d)) && Open(b.els, TestDirt(b.test, d)))
  }

  predicate OpenLoop(b: Block, d: set<int>)
    requires b.Loop?
    decreases b, 0
  {
    EnterClean(b.start, d) && NeverReruns(b.body) && Open(b.body, EnterDirt(b.start, d))
  }

  function OpenDirt(b: Block, d: set<int>): set<int>
    decreases b, 2
  {
    if b.Done? then d else OpenDirt(b.rest, OpenFrontDirt(b, d))
  }

  function OpenFrontDirt(b: Block, d: set<int>): set<int>
    requires !b.Done?
    decreases b, 1
  {
    if FrontClean(b, d) then FrontDirt(b, d)
    else if b.Loop? then EnterDirt(b.start, d) + (Writes(b.body) + {b.ctr})
    else if b.If? then
      var e := TestDirt(b.test, d); OpenDirt(b.thn, e) + (if b.hasElse then OpenDirt(b.els, e) else e)
    else FrontDirt(b, d)
  }

  /** By how much the simulator's time is more than the unrolled one: for each collapsed loop, n first
      passes, miscounted as they may be, instead of all passes. */
  function Missed(b: Block, d: set<int>, inc: seq<real>, f: Vars): real
    requires |inc| == DELAYS
    decreases b, 2
  {
    if b.Done? then 0.0
    else MissedFront(b, d, inc, f) + Missed(b.rest, OpenFrontDirt(b, d), inc, FullFront(b, inc, f).rt)
  }

  function MissedFront(b: Block, d: set<int>, inc: seq<real>, f: Vars): real
    requires |inc| == DELAYS && !b.Done?
    decreases b, 1
  {
    if FrontClean(b, d) then 0.0
    else if b.Loop? then
      var (f1, n) := EnterLoop(b.start, f);
      var ts := PassTimes(b.body, b.ctr, n, inc, f1);
      Scale(n, ts[0] + Missed(b.body, EnterDirt(b.start, d), inc, f1)) - Sum(ts)
    else if b.If? then
      var (taken, f1) := Taken(b.test, f);
      if taken then Missed(b.thn, TestDirt(b.test, d), inc, f1)
      else if b.hasElse then Missed(b.els, TestDirt(b.test, d), inc, f1) else 0.0
    else 0.0
  }

  /** x is no less than y, or no more. */
  predicate Beside(up: bool, x: real, y: real) {
    if up then x >= y else x <= y
  }

  /** In the unrolled run, every pass of a loop that is collapsed takes no less (or no more) than its first. */
  predicate Sided(up: bool, b: Block, d: set<int>, inc: seq<real>, f: Vars)
    requires |inc| == DELAYS
    decreases b, 2
  {
    b.Done? || (SidedFront(up, b, d, inc, f) && Sided(up, b.rest, OpenFrontDirt(b, d), inc, FullFront(b, inc, f).rt))
  }

  predicate SidedFront(up: bool, b: Block, d: set<int>, inc: seq<real>, f: Vars)
    requires |inc| == DELAYS && !b.Done?
    decreases b, 1
  {
    || FrontClean(b, d)
    || (b.Loop? &&
        var (f1, n) := EnterLoop(b.start, f);
        var ts := PassTimes(b.body, b.ctr, n, inc, f1);
        Sided(up, b.body, EnterDirt(b.start, d), inc, f1) && forall k :: 0 <= k < n ==> Beside(up, ts[k], ts[0]))
    || (b.If? &&
        var (taken, f1) := Taken(b.test, f);
        if taken then Sided(up, b.thn, TestDirt(b.test, d), inc, f1)
        else b.hasElse ==> Sided(up, b.els, TestDirt(b.test, d), inc, f1))
  }

  /** ... takes as long as its first. */
  predicate Even(b: Block, d: set<int>, inc: seq<real>, f: Vars)
    requires |inc| == DELAYS
    decreases b, 2
  {
    b.Done? || (EvenFront(b, d, inc, f) && Even(b.rest, OpenFrontDirt(b, d), inc, FullFront(b, inc, f).rt))
  }

  predicate EvenFront(b: Block, d: set<int>, inc: seq<real>, f: Vars)
    requires |inc| == DELAYS && !b.Done?
    decreases b, 1
  {
    || FrontClean(b, d)
    || (b.Loop? &&
        var (f1, n) := EnterLoop(b.start, f);
        var ts := PassTimes(b.body, b.ctr, n, inc, f1);
        Even(b.body, EnterDirt(b.start, d), inc, f1) && forall k :: 0 <= k < n ==> ts[k] == ts[0])
    || (b.If? &&
        var (taken, f1) := Taken(b.test, f);
        if taken then Even(b.thn, TestDirt(b.test, d), inc, f1)
        else b.hasElse ==> Even(b.els, TestDirt(b.test, d), inc, f1))
  }

  /** The simulator's time is the unrolled one and `more`, and the same variables but for those of d. */
  ghost predicate OffBy(o: Out, g: Result, d: set<int>, more: real) {
    o.time == g.time + more && Agree(o.rt, g.rt, d)
  }

  /** For every block whose first passes read nothing that may differ. */
  lemma {:induction false} RunIsOff(b: Block, inc: seq<real>, r: Vars, f: Vars, d: set<int>)
    requires |inc| == DELAYS && Agree(r, f, d) && Open(b, d)
    ensures OffBy(Run(b, inc, r), Full(b, inc, f), OpenDirt(b, d), Missed(b, d, inc, f))
    decreases b, 2
  {
    hide Agree, FrontOut, FullFront, OpenFrontDirt, FrontOpen, MissedFront;
    if !b.Done? {
      FrontIsOff(b, inc, r, f, d);
      RunIsOff(b.rest, inc, FrontOut(b, inc, r).rt, FullFront(b, inc, f).rt, OpenFrontDirt(b, d));
    }
  }

  lemma {:induction false} FrontIsOff(b: Block, inc: seq<real>, r: Vars, f: Vars, d: set<int>)
    requires |inc| == DELAYS && !b.Done? && Agree(r, f, d) && FrontOpen(b, d)
    ensures OffBy(FrontOut(b, inc, r), FullFront(b, inc, f), OpenFrontDirt(b, d), MissedFront(b, d, inc, f))
    decreases b, 1
  {
    if FrontClean(b, d) {
      hide Agree, FrontOut, FullFront, FrontDirt, FrontClean;
      FrontIsFull(b, inc, r, f, d);
    } else if b.Loop? {
      LoopIsOff(b, inc, r, f, d);
    } else {
      IfIsOff(b, inc, r, f, d);
    }
  }

  lemma {:induction false} IfIsOff(b: Block, inc: seq<real>, r: Vars, f: Vars, d: set<int>)
    requires |inc| == DELAYS && b.If? && !FrontClean(b, d) && Agree(r, f, d) && FrontOpen(b, d)
    ensures OffBy(FrontOut(b, inc, r), FullFront(b, inc, f), OpenFrontDirt(b, d), MissedFront(b, d, inc, f))
    decreases b, 0
  {
    hide Agree, Taken, TestDirt, Run, Full, OpenDirt, Open, Missed, FrontClean;
    TestAgrees(b.test, r, f, d);
    var e := TestDirt(b.test, d);
    var (taken, r1) := Taken(b.test, r);
    var f1 := Taken(b.test, f).1;
    assert FrontOut(b, inc, r) == IfOut(b, inc, r);
    if taken {
      RunIsOff(b.thn, inc, r1, f1, e);
      AgreeMore(Run(b.thn, inc, r1).rt, Full(b.thn, inc, f1).rt, OpenDirt(b.thn, e), OpenFrontDirt(b, d));
    } else if b.hasElse {
      RunIsOff(b.els, inc, r1, f1, e);
      AgreeMore(Run(b.els, inc, r1).rt, Full(b.els, inc, f1).rt, OpenDirt(b.els, e), OpenFrontDirt(b, d));
    } else {
      AgreeMore(r1, f1, e, OpenFrontDirt(b, d));
    }
  }

  lemma {:induction false} LoopIsOff(b: Block, inc: seq<real>, r: Vars, f: Vars, d: set<int>)
    requires |inc| == DELAYS && b.Loop? && !FrontClean(b, d) && Agree(r, f, d) && FrontOpen(b, d)
    ensures OffBy(FrontOut(b, inc, r), FullFront(b, inc, f), OpenFrontDirt(b, d), MissedFront(b, d, inc, f))
    decreases b, 0
  {
    hide Agree, EnterLoop, Run, Full, Open, OpenDirt, Missed, FrontClean, FullPasses, PassTimes, Writes, NeverReruns,
         Scale, Sum, EnterDirt;
    EnterAgrees(b.start, r, f, d);
    var (r1, n) := EnterLoop(b.start, r);
    var f1 := EnterLoop(b.start, f).0;
    var e := EnterDirt(b.start, d);
    RunIsOff(b.body, inc, r1, f1, e);
    FirstPass(b.body, b.ctr, n, inc, f1);
    NoRerun(b.body, inc, r1);
    PassesAddUp(b.body, b.ctr, n, inc, f1);
    LoopLeaves(b.body, b.ctr, n, inc, Run(b.body, inc, r1).rt, f1, e);
    assert FrontOut(b, inc, r) == LoopOut(b.start, b.body, b.ctr, inc, r);
    CollapsedPass(b.body, b.ctr, n, inc, r1);
  }

  lemma CollapsedPass(body: Block, ctr: int, n: int, inc: seq<real>, rt: Vars)
    requires |inc| == DELAYS && n >= 1 && !Run(body, inc, rt).rerun
    ensures var p, q := Run(body, inc, rt), Passes(body, ctr, n, false, inc, rt);
            q.time == Scale(n, p.time) && q.rt == p.rt
  {
  }

  // ----- passes on one side of their first --------------------------------------------------------------------

  lemma ScaleSide(up: bool, n: nat, x: real, y: real)
    requires n >= 1 && Beside(up, x, y)
    ensures Beside(up, Scale(n, x), Scale(n, y)) && (Scale(n, x) == Scale(n, y) <==> x == y)
  {
    if x < y {
      assert n as real * (y - x) > 0.0;
    } else if x > y {
      assert n as real * (x - y) > 0.0;
    }
  }

  /** Then all that is missed is on the other side, and nothing just when all passes are even. */
  lemma {:induction false} MissedSide(up: bool, b: Block, d: set<int>, inc: seq<real>, f: Vars)
    requires |inc| == DELAYS && Sided(up, b, d, inc, f)
    ensures Beside(up, 0.0, Missed(b, d, inc, f)) && (Missed(b, d, inc, f) == 0.0 <==> Even(b, d, inc, f))
    decreases b, 2
  {
    hide FullFront, OpenFrontDirt, SidedFront, EvenFront, MissedFront;
    if !b.Done? {
      MissedFrontSide(up, b, d, inc, f);
      MissedSide(up, b.rest, OpenFrontDirt(b, d), inc, FullFront(b, inc, f).rt);
    }
  }

  lemma {:induction false} MissedFrontSide(up: bool, b: Block, d: set<int>, inc: seq<real>, f: Vars)
    requires |inc| == DELAYS && !b.Done? && SidedFront(up, b, d, inc, f)
    ensures Beside(up, 0.0, MissedFront(b, d, inc, f))
    ensures MissedFront(b, d, inc, f) == 0.0 <==> EvenFront(b, d, inc, f)
    decreases b, 1
  {
    hide EnterLoop, Taken, Missed, Sided, Even, FrontClean, PassTimes, Scale, Sum, EnterDirt, TestDirt;
    if FrontClean(b, d) {
    } else if b.Loop? {
      var (f1, n) := EnterLoop(b.start, f);
      var ts, m := PassTimes(b.body, b.ctr, n, inc, f1), Missed(b.body, EnterDirt(b.start, d), inc, f1);
      MissedSide(up, b.body, EnterDirt(b.start, d), inc, f1);
      SumAgainst(ts, ts[0]);
      ScaleSide(up, n, ts[0], ts[0] + m);
    } else if b.If? {
      var (taken, f1) := Taken(b.test, f);
      if taken {
        MissedSide(up, b.thn, TestDirt(b.test, d), inc, f1);
      } else if b.hasElse {
        MissedSide(up, b.els, TestDirt(b.test, d), inc, f1);
      }
    }
  }

  /** The simulator's time is on that side of the unrolled one, and the same just when `even`. */
  ghost predicate Judged(up: bool, o: Out, g: Result, d: set<int>, even: bool) {
    Beside(up, g.time, o.time) && (o.time == g.time <==> even) && Agree(o.rt, g.rt, d)
  }

  lemma RunIsJudged(up: bool, b: Block, inc: seq<real>, r: Vars, f: Vars, d: set<int>)
    requires |inc| == DELAYS && Agree(r, f, d) && Open(b, d) && Sided(up, b, d, inc, f)
    ensures Judged(up, Run(b, inc, r), Full(b, inc, f), OpenDirt(b, d), Even(b, d, inc, f))
  {
    hide Run, Full, Agree, Open, OpenDirt, Sided, Even, Missed;
    RunIsOff(b, inc, r, f, d);
    MissedSide(up, b, d, inc, f);
  }

  lemma FirstPass(body: Block, ctr: int, n: int, inc: seq<real>, f: Vars)
    requires |inc| == DELAYS && n >= 1
    ensures PassTimes(body, ctr, n, inc, f)[0] == Full(body, inc, f).time
  {
  }

  /** After one pass and after all of them, the variables differ at most in what passes write. */
  lemma LoopLeaves(body: Block, ctr: int, n: int, inc: seq<real>, rt: Vars, f: Vars, e: set<int>)
    requires |inc| == DELAYS && n >= 1 && Agree(rt, Full(body, inc, f).rt, OpenDirt(body, e))
    ensures Agree(rt, FullPasses(body, ctr, n, inc, f).rt, e + (Writes(body) + {ctr}))
  {
    hide Agree, Full, FullPasses, Writes, OpenDirt;
    var w, p, q := Writes(body), Full(body, inc, f).rt, FullPasses(body, ctr, n, inc, f).rt;
    OpenBound(body, e);
    AgreeMore(rt, p, OpenDirt(body, e), e + w);
    FullWrites(body, inc, f);
    AgreeBack(f, p, w);
    PassesWrite(body, ctr, n, inc, f);
    AgreeThen(p, f, q, w, w + {ctr});
    AgreeThen(rt, p, q, e + w, w + (w + {ctr}));
    assert e + w + (w + (w + {ctr})) == e + (w + {ctr});
  }

  lemma {:induction false} OpenBound(b: Block, d: set<int>)
    ensures OpenDirt(b, d) <= d + Writes(b)
    decreases b, 2
  {
    hide OpenFrontDirt;
    if !b.Done? {
      OpenFrontBound(b, d);
      OpenBound(b.rest, OpenFrontDirt(b, d));
    }
  }

  lemma {:induction false} OpenFrontBound(b: Block, d: set<int>)
    requires !b.Done?
    ensures OpenFrontDirt(b, d) <= d + FrontWritten(b)
    decreases b, 1
  {
    hide OpenDirt, Writes, FrontClean, FrontDirt;
    FrontBound(b, d);
    if b.If? {
      OpenBound(b.thn, TestDirt(b.test, d));
      OpenBound(b.els, TestDirt(b.test, d));
    }
  }

  lemma AgreeBack(a: Vars, b: Vars, d: set<int>)
    requires Agree(a, b, d)
    ensures Agree(b, a, d)
  {
  }

  // ----- the simulator's answer -----------------------------------------------------------------------------

  /** The time left in timers[0] is that of the unrolled program and what its collapsed loops miss: right if
      and only if that comes to nothing. */
  lemma TimeIsOff(b: Block, tail: seq<Node>, inc: seq<real>, rt: Vars, n: nat)
    requires |inc| == DELAYS && Fits(b, 1, true) && Tail(tail) && Open(b, {})
    requires !Active(Flatten(b) + tail, Turns(Flatten(b) + tail, inc, Initial(rt), n))
    ensures var e := Turns(Flatten(b) + tail, inc, Initial(rt), n);
            && |e.frames| == 1 && e.frames[0].rcnt == 1
            && e.frames[0].timer == Full(b, inc, rt).time + Missed(b, {}, inc, rt)
  {
    hide Fits, Open, Missed, Turns, Flatten, Run, Full;
    StopsWithRun(b, tail, inc, rt, n);
    assert Agree(rt, rt, {});
    RunIsOff(b, inc, rt, rt, {});
  }

  /** Where every pass of a collapsed loop takes no more than its first, the time left in timers[0] is never
      less than the unrolled program's, where every pass takes no less it is never more; and in either case it
      is the same just when all passes of each take the same. */
  lemma TimeExactlyUnrolled(up: bool, b: Block, tail: seq<Node>, inc: seq<real>, rt: Vars, n: nat)
    requires |inc| == DELAYS && Fits(b, 1, true) && Tail(tail) && Open(b, {}) && Sided(up, b, {}, inc, rt)
    requires !Active(Flatten(b) + tail, Turns(Flatten(b) + tail, inc, Initial(rt), n))
    ensures var e := Turns(Flatten(b) + tail, inc, Initial(rt), n);
            && |e.frames| == 1 && e.frames[0].rcnt == 1
            && Beside(up, Full(b, inc, rt).time, e.frames[0].timer)
            && (e.frames[0].timer == Full(b, inc, rt).time <==> Even(b, {}, inc, rt))
  {
    hide Fits, Open, Sided, Even, Missed, Turns, Flatten, Run, Full;
    TimeIsOff(b, tail, inc, rt, n);
    MissedSide(up, b, {}, inc, rt);
  }

  /** What TimeIsUnrolled asks for is the case in which no loop's passes matter. */
  lemma {:induction false} CleanIsEven(up: bool, b: Block, d: set<int>, inc: seq<real>, f: Vars)
    requires |inc| == DELAYS && Clean(b, d)
    ensures Open(b, d) && Sided(up, b, d, inc, f) && Even(b, d, inc, f)
    decreases b
  {
    hide FrontClean, FrontDirt;
    if !b.Done? { CleanIsEven(up, b.rest, FrontDirt(b, d), inc, FullFront(b, inc, f).rt); }
  }

  // ----- the smallest case --------------------------------------------------------------------------------------

  /** A loop whose first pass changes what it tests: of two passes only the first takes time. */
  const ONCE := If(IfZero(3), Leaf(Timed(1.0), Done), false, Done, Leaf(SetVal(3, 1.0), Done))
  const DEPENDENT := Loop(Msloop(1, 2, 2.0), ONCE, 2, Done)

  lemma OncePass(inc: seq<real>, rt: Vars)
    requires |inc| == DELAYS
    ensures var t := if Get(rt, 3) == 0 then 1.0 else 0.0;
            && Run(ONCE, inc, rt).time == t && Full(ONCE, inc, rt) == Result(t, Set(rt, 3, 1))
    ensures Collapses(ONCE, inc, rt)
  {
    assert Nearest(1.0) == 1;
    hide Nearest;
  }

  lemma DependentLoopMiscounted(inc: seq<real>, rt: Vars)
    requires |inc| == DELAYS && Get(rt, 3) == 0
    ensures Run(DEPENDENT, inc, rt).time == 2.0 && Full(DEPENDENT, inc, rt).time == 1.0
  {
    hide Run, Full, ONCE, Collapses;
    assert Nearest(2.0) == 2;
    var rt1 := EnterLoop(DEPENDENT.start, rt).0;
    var rt2 := Set(Set(rt1, 3, 1), 2, 1);
    assert EnterLoop(DEPENDENT.start, rt).1 == 2;
    OncePass(inc, rt1);
    OncePass(inc, rt2);
    assert PassTimes(ONCE, 2, 1, inc, rt2) == [0.0];
    assert PassTimes(ONCE, 2, 2, inc, rt1) == [1.0, 0.0];
    assert [1.0, 0.0][1..] == [0.0] && [0.0][1..] == [];
    CollapsedExactly(ONCE, 2, 2, inc, rt1);
    CollapsedTime(ONCE, 2, 2, inc, rt1);
    PassesAddUp(ONCE, 2, 2, inc, rt1);
    LoopAlone(DEPENDENT, inc, rt);
  }
}
