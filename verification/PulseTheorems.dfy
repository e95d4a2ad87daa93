/** The main results on pulse programs, from a sequence's calls to the board's trace. */
module PulseTheorems {
  import opened Arithmetic
  import opened Phase
  import opened PulseText
  import opened Board
  import opened B12Compiler
  import opened PulseMeaning
  import opened PulseCorrectness

  // ----- what the placement of the loop needs, on the sequence's calls ---------------------------

  function PulseCount(width: real, rg1: real, rg2: real): nat {
    if width > 0.0 then 1 + (if rg1 > 0.0 then 1 else 0) + (if rg2 > 0.0 then 1 else 0) else 0
  }

  /** The instructions of a call's first element. */
  function CallCount(c: Call, p: Params): nat {
    match c
    case Delay(time) => if time > 0.0 then 1 else 0
    case Pulse(width, _) => PulseCount(width, p.rof1, p.rof2)
    case RgPulse(width, _, rg1, rg2) => PulseCount(width, rg1, rg2)
    case Acquire => 1
    case _ => 0
  }

  /** The instructions of the first element that programs any. */
  function FirstInstructions(calls: seq<Call>, p: Params): nat {
    if calls == [] then 0
    else if CallCount(calls[0], p) > 0 then CallCount(calls[0], p)
    else FirstInstructions(calls[1..], p)
  }

  /** The elements that program instructions. */
  function EmittingElements(calls: seq<Call>, p: Params): nat {
    if calls == [] then 0
    else (if CallCount(calls[0], p) == 0 then 0 else if calls[0].Acquire? && p.alfa > 0.0 then 2 else 1)
         + EmittingElements(calls[1..], p)
  }

  /** Whether the call writes a line at all. */
  predicate Writes(c: Call) {
    match c
    case Settable(_, _) => false
    case Delay(time) => time > 0.0
    case Pulse(width, _) => width > 0.0
    case RgPulse(width, _, _, _) => width > 0.0
    case _ => true
  }

  /** The last line written programs an instruction: no STATUS, POWER or OFFSET comes last. */
  predicate EndsEmitting(calls: seq<Call>) {
    calls != []
    && var c := calls[|calls| - 1];
       if Writes(c) then !c.Status? && !c.RlPower? && !c.Offset? else EndsEmitting(calls[..|calls| - 1])
  }

  /** The loop of `cycle` scans is placed well. */
  predicate LoopPlacedWell(calls: seq<Call>, p: Params, cycle: nat) {
    var own := WithAcquire(calls);
    && FirstInstructions(own, p) == 1
    && EndsEmitting(own)
    && (cycle >= 2 || EmittingElements(own, p) >= 2)
  }

  // ----- counting lines ---------------------------------------------------------------------------

  function EmitLines(ls: seq<Line>): nat {
    if ls == [] then 0 else (if Count(ls[0]) > 0 then 1 else 0) + EmitLines(ls[1..])
  }

  lemma {:induction false} CountsConcat(a: seq<Line>, b: seq<Line>)
    ensures FirstCount(a + b) == if FirstCount(a) > 0 then FirstCount(a) else FirstCount(b)
    ensures EmitLines(a + b) == EmitLines(a) + EmitLines(b)
    ensures EmitLines(a) > 0 <==> FirstCount(a) > 0
  {
    if a == [] {
      assert a + b == b;
    } else {
      assert (a + b)[1..] == a[1..] + b;
      CountsConcat(a[1..], b);
    }
  }

  lemma CountsOne(l: Line)
    ensures FirstCount([l]) == Count(l) && EmitLines([l]) == if Count(l) > 0 then 1 else 0
  {
    assert [l][1..] == [];
  }

  lemma CallCounts(c: Call, ts: seq<Table>, i: nat, p: Params, regs: seq<int>)
    requires ValidTables(ts)
    ensures var ls := CallLines(c, ts, i, p, regs);
            && FirstCount(ls) == CallCount(c, p)
            && EmitLines(ls) == (if CallCount(c, p) == 0 then 0 else if c.Acquire? && p.alfa > 0.0 then 2 else 1)
            && (ls != [] <==> Writes(c))
            && (ls != [] ==> (Count(ls[|ls| - 1]) > 0 <==> !c.Status? && !c.RlPower? && !c.Offset?))
  {
    var ls := CallLines(c, ts, i, p, regs);
    if |ls| == 1 {
      CountsOne(ls[0]);
    } else if c.Acquire? {
      CountsOne(ls[0]);
      CountsOne(ls[1]);
      CountsConcat([ls[0]], [ls[1]]);
      assert ls == [ls[0]] + [ls[1]];
    }
  }

  lemma {:induction false} LinesCounts(calls: seq<Call>, ts: seq<Table>, i: nat, p: Params, regs: seq<int>)
    requires ValidTables(ts) && ValidCalls(calls)
    ensures var ls := Lines(calls, ts, i, p, regs);
            FirstCount(ls) == FirstInstructions(calls, p) && EmitLines(ls) == EmittingElements(calls, p)
  {
    if calls != [] {
      CallCounts(calls[0], ts, i, p, regs);
      LinesCounts(calls[1..], CallTables(calls[0], ts), i, p, regs);
      CountsConcat(CallLines(calls[0], ts, i, p, regs), Lines(calls[1..], CallTables(calls[0], ts), i, p, regs));
    }
  }

  /** The last line of a sequence that writes any. */
  lemma {:induction false} LinesEnd(calls: seq<Call>, ts: seq<Table>, i: nat, p: Params, regs: seq<int>)
    requires ValidTables(ts) && ValidCalls(calls)
    ensures var ls := Lines(calls, ts, i, p, regs);
            && (EndsEmitting(calls) ==> ls != [])
            && (ls != [] ==> (Count(ls[|ls| - 1]) > 0 <==> EndsEmitting(calls)))
    decreases |calls|
  {
    if calls != [] {
      var k := |calls| - 1;
      var init, c := calls[..k], calls[k];
      assert calls == init + [c];
      LinesEnd(init, ts, i, p, regs);
      LinesConcat(init, [c], ts, i, p, regs);
      var ts' := TablesAfter(init, ts);
      assert [c][1..] == [];
      assert Lines([c], ts', i, p, regs) == CallLines(c, ts', i, p, regs);
      CallCounts(c, ts', i, p, regs);
    }
  }

  lemma {:induction false} AcquiringSequence(calls: seq<Call>, p: Params)
    requires HasAcquire(calls)
    ensures FirstInstructions(calls, p) > 0 && EmittingElements(calls, p) > 0
  {
    if !calls[0].Acquire? {
      var k :| 0 <= k < |calls| && calls[k].Acquire?;
      assert calls[1..][k - 1].Acquire?;
      AcquiringSequence(calls[1..], p);
    }
  }

  lemma OwnCounts(calls: seq<Call>, p: Params)
    ensures FirstInstructions(WithAcquire(calls), p) > 0 && EmittingElements(WithAcquire(calls), p) > 0
  {
    assert !HasAcquire(calls) ==> WithAcquire(calls)[|calls|].Acquire?;
    AcquiringSequence(WithAcquire(calls), p);
  }

  lemma IntroCounts(lead: bool, p: Params, regs: seq<int>, ls: seq<Line>)
    ensures var all := [PhaseReset] + LeadLines(lead, p, regs) + ls;
            FirstCount(all) == FirstCount(ls) && EmitLines(all) == EmitLines(ls)
  {
    CountsOne(PhaseReset);
    if lead {
      CountsOne(LeadLines(lead, p, regs)[0]);
    }
    CountsConcat([PhaseReset], LeadLines(lead, p, regs));
    CountsConcat([PhaseReset] + LeadLines(lead, p, regs), ls);
  }

  /** The last line programs an instruction. */
  predicate LastEmits(ls: seq<Line>) {
    ls != [] && Count(ls[|ls| - 1]) > 0
  }

  /** The counts of k scans of a sequence. */
  ghost predicate Tallied(ls: seq<Line>, own: seq<Call>, p: Params, k: nat) {
    && ls != [] && (LastEmits(ls) <==> EndsEmitting(own))
    && FirstCount(ls) == FirstInstructions(own, p) > 0
    && EmitLines(ls) >= k && (k == 1 ==> EmitLines(ls) == EmittingElements(own, p))
  }

  lemma ScanCounts(calls: seq<Call>, ts: seq<Table>, i: nat, lead: bool, p: Params, regs: seq<int>)
    requires ValidTables(ts) && ValidCalls(calls)
    ensures Tallied(ScanLines(calls, ts, i, lead, p, regs), WithAcquire(calls), p, 1)
  {
    hide Lines, LeadLines, FirstInstructions, EmittingElements, Count, RegisterOf, Quantise, PhaseAt;
    var own := WithAcquire(calls);
    var intro, ls := [PhaseReset] + LeadLines(lead, p, regs), Lines(own, ts, i, p, regs);
    AcquireAtEnd(calls, ts, i, p, regs);
    assert ScanLines(calls, ts, i, lead, p, regs) == intro + ls;
    IntroCounts(lead, p, regs, ls);
    LinesCounts(own, ts, i, p, regs);
    LinesEnd(own, ts, i, p, regs);
    OwnCounts(calls, p);
    assert ls != [];
  }

  lemma JoinCounts(before: seq<Line>, scan: seq<Line>, own: seq<Call>, p: Params, k: nat)
    requires Tallied(scan, own, p, 1) && (if k == 0 then before == [] else Tallied(before, own, p, k))
    ensures Tallied(before + scan, own, p, k + 1)
  {
    CountsConcat(before, scan);
    assert k == 0 ==> before + scan == scan;
  }

  lemma {:induction false} ScansCounts(calls: seq<Call>, own: seq<Call>, ts: seq<Table>, lo: nat, hi: nat, lead: bool,
                                       p: Params, regs: seq<int>)
    requires ValidTables(ts) && ValidCalls(calls) && lo < hi && own == WithAcquire(calls)
    ensures Tallied(Scans(calls, ts, lo, hi, lead, p, regs), own, p, hi - lo)
    decreases hi
  {
    hide ScanLines, Tallied, ValidCalls, ValidTables, WithAcquire;
    var before, scan := Scans(calls, ts, lo, hi - 1, lead, p, regs), ScanLines(calls, ts, hi - 1, lead, p, regs);
    ScanCounts(calls, ts, hi - 1, lead, p, regs);
    if lo < hi - 1 {
      ScansCounts(calls, own, ts, lo, hi - 1, lead, p, regs);
    }
    JoinCounts(before, scan, own, p, hi - 1 - lo);
  }

  lemma SplitLast(ls: seq<Line>)
    requires ls != []
    ensures var pre, last := ls[..|ls| - 1], ls[|ls| - 1];
            && FirstCount(ls) == (if FirstCount(pre) > 0 then FirstCount(pre) else Count(last))
            && (FirstCount(pre) > 0 <==> EmitLines(ls) > (if Count(last) > 0 then 1 else 0))
  {
    var pre, last := ls[..|ls| - 1], ls[|ls| - 1];
    assert ls == pre + [last];
    CountsConcat(pre, [last]);
    CountsOne(last);
  }

  /** The placement on the calls is the placement on the body's lines. */
  lemma PlacedWellOnLines(calls: seq<Call>, ts: seq<Table>, cycle: nat, p: Params, regs: seq<int>)
    requires ValidTables(ts) && ValidCalls(calls) && cycle >= 1
    ensures var body := Scans(calls, ts, 0, cycle, true, p, regs);
            body != [] && (WellPlaced(body[..|body| - 1], body[|body| - 1]) <==> LoopPlacedWell(calls, p, cycle))
  {
    hide Scans, WithAcquire, FirstCount, EmitLines, FirstInstructions, EmittingElements, EndsEmitting, Count;
    var own, body := WithAcquire(calls), Scans(calls, ts, 0, cycle, true, p, regs);
    ScansCounts(calls, own, ts, 0, cycle, true, p, regs);
    SplitLast(body);
  }

  // ----- the program of a FID -----------------------------------------------------------------------

  /** Everything in the code file from PULSEPROG_START to PULSEPROG_DONE. */
  function FidText(calls: seq<Call>, p: Params, regs: seq<int>, ix: nat): seq<Line>
    requires ValidCalls(calls)
  {
    [PulseprogStart(ix)] + ProgramText(calls, p, regs) + [PulseprogDone(ix)]
  }

  function FidState(calls: seq<Call>, p: Params, regs: seq<int>, ix: nat, e: Exps): Exps
    requires ValidCalls(calls)
  {
    Compile(FidText(calls, p, regs, ix), e)
  }

  function HeaderState(e: Exps): Exps {
    e.(ctl := START_CONTROL, op := Continue, expTime := 0.0, board := [])
  }

  lemma {:induction false} CompileInert(ls: seq<Line>, e: Exps)
    requires forall k :: 0 <= k < |ls| ==>
               ls[k].NumberPoints? || ls[k].SpectrometerFrequency? || ls[k].NumberOfScans? || ls[k].SpectralWidth?
               || ls[k].Rattn? || ls[k].MpsPower?
    ensures Compile(ls, e) == e
  {
    if ls != [] {
      CompileInert(ls[1..], e);
    }
  }

  lemma CompileHeader(p: Params, regs: seq<int>, ix: nat, e: Exps)
    ensures Compile([PulseprogStart(ix)] + Header(p, regs), e) == HeaderState(e)
  {
    var front := [NumberPoints(p.np), SpectrometerFrequency(p.sfrq), NumberOfScans(p.nt), SpectralWidth(p.sw)];
    var back := [Rattn(p.rattn)] + if p.mpspower.Some? then [MpsPower(p.mpspower.value)] else [];
    var e1 := e.(ctl := START_CONTROL, op := Continue);
    var all := [PulseprogStart(ix)] + front + [Powers(regs)] + [PulseElements] + back;
    assert [PulseprogStart(ix)] + Header(p, regs) == all;
    CompileConcat([PulseprogStart(ix)] + front + [Powers(regs)] + [PulseElements], back, e);
    CompileConcat([PulseprogStart(ix)] + front + [Powers(regs)], [PulseElements], e);
    CompileConcat([PulseprogStart(ix)] + front, [Powers(regs)], e);
    CompileConcat([PulseprogStart(ix)], front, e);
    CompileSingle(PulseprogStart(ix), e);
    CompileInert(front, e1);
    CompileSingle(Powers(regs), e1);
    CompileSingle(PulseElements, e1);
    CompileInert(back, HeaderState(e));
  }

  /** A FID's program is its header and then the loop, the remainder and STOP. */
  lemma CompileFidText(calls: seq<Call>, p: Params, regs: seq<int>, ix: nat, e: Exps)
    requires ValidCalls(calls)
    ensures FidState(calls, p, regs, ix, e)
            == Compile(LoopText(calls, p, regs) + Remainder(calls, p, regs) + [PulseprogDone(ix)], HeaderState(e))
  {
    hide Header, LoopText, Remainder, Compile, HeaderState;
    var h, loop, rest := Header(p, regs), LoopText(calls, p, regs), Remainder(calls, p, regs);
    CompileHeader(p, regs, ix, e);
    CompileConcat([PulseprogStart(ix)] + h, loop + rest + [PulseprogDone(ix)], e);
    assert FidText(calls, p, regs, ix) == [PulseprogStart(ix)] + h + (loop + rest + [PulseprogDone(ix)]);
  }

  // ----- the trace of a FID's program ---------------------------------------------------------------

  /** The cycle is looped just when it fits twice into the scans, as often as it fits. */
  lemma PlanIs(calls: seq<Call>, p: Params)
    requires ValidCalls(calls)
    ensures var plan, cycle := Plan(calls, p), PhaseCycle(EmittedTables(calls, p));
            && (plan.loops == 0 <==> p.nt < 2 * cycle)
            && (plan.loops == 0 ==> plan.cycle == 0 && plan.rem == p.nt)
            && (plan.loops > 0 ==> plan.loops >= 2 && plan.cycle == cycle >= 1 && plan.rem < cycle)
            && plan.loops * plan.cycle + plan.rem == p.nt
  {
    PhaseCycleIsLeastBound(EmittedTables(calls, p), 0);
    FitsTwice(p.nt, PhaseCycle(EmittedTables(calls, p)));
  }

  lemma FitsTwice(n: nat, m: nat)
    requires m >= 1
    ensures n / m > 1 <==> n >= 2 * m
    ensures 0 <= n - n / m * m < m
  {
    QuotientRemainder(n, m);
    if n / m > 1 { MulAtMost(2, n / m, m); } else { MulAtMost(n / m, 1, m); }
  }

  /** The looped body, split before the element NSC_ENDLOOP precedes. */
  lemma LoopShape(calls: seq<Call>, p: Params, regs: seq<int>, ix: nat, e: Exps)
    requires ValidCalls(calls) && Plan(calls, p).loops > 0
    ensures var plan, ts := Plan(calls, p), EmittedTables(calls, p);
            var body := Scans(calls, ts, 0, plan.cycle, true, p, regs);
            && body != []
            && FidState(calls, p, regs, ix, e)
               == Compile(FidLines(body[..|body| - 1], body[|body| - 1], RestOf(calls, ts, plan, p, regs), plan.loops,
                                   p.nt, ix), HeaderState(e))
  {
    hide Scans, Compile, FidState, LoopPlacedWell, WellPlaced, LoopLines, CloseLoop;
    var plan, ts := Plan(calls, p), EmittedTables(calls, p);
    PlanIs(calls, p);
    PlacedWellOnLines(calls, ts, plan.cycle, p, regs);
    CompileFidText(calls, p, regs, ix, e);
    var body := Scans(calls, ts, 0, plan.cycle, true, p, regs);
    LoopLinesAre(body, plan.loops, p.nt);
  }

  lemma LoopLinesAre(body: seq<Line>, n: nat, nt: nat)
    requires body != []
    ensures [NscLoop(n)] + CloseLoop(body, nt) == LoopLines(body[..|body| - 1], body[|body| - 1], n, nt)
  {
    assert body[|body| - 1..] == [body[|body| - 1]];
  }

  /** The actions of a split body are those of the body. */
  lemma LoopActsAre(body: seq<Line>, rest: seq<Line>, ctl: Control, at: real)
    requires body != []
    ensures var pre, last := body[..|body| - 1], body[|body| - 1];
            && LoopActs(pre, last, ctl, at) == Acts(body, ctl, at)
            && RestActs(pre, last, rest, ctl, at) == Acts(rest, ControlAfter(body, ctl, at), at)
            && pre + [last] == body
  {
    var pre, last := body[..|body| - 1], body[|body| - 1];
    assert pre + [last] == body;
    ActsConcat(pre, [last], ctl, at);
    ActsOne(last, ControlAfter(pre, ctl, at), at);
  }

  /** The board's trace for a body and a rest of lines that mean the scans `s` and `r`. */
  lemma BodyPerforms(body: seq<Line>, rest: seq<Line>, n: nat, nt: nat, ix: nat, e: Exps) returns (trace: seq<Action>)
    requires body != [] && Elements(body) && Elements(rest) && Fresh(e) && n >= 2 && FirstCount(body) > 0
    requires FirstCount(rest) == 0 || FirstCount(rest) == FirstCount(body)
    ensures var pre, last := body[..|body| - 1], body[|body| - 1];
            var s, r := Acts(body, e.ctl, e.at), Acts(rest, ControlAfter(body, e.ctl, e.at), e.at);
            && Performs(Compile(FidLines(pre, last, rest, n, nt, ix), e).board, trace)
            && (WellPlaced(pre, last) ==> trace == Repeat(s, n) + r + [STOP_ACTION])
            && (|trace| == n * |s| + |r| + 1 ==> WellPlaced(pre, last))
  {
    var pre, last := body[..|body| - 1], body[|body| - 1];
    LoopActsAre(body, rest, e.ctl, e.at);
    FirstCountActs(body, e.ctl, e.at);
    LoopPerforms(pre, last, rest, n, nt, ix, e);
    LoopTraceExact(pre, last, rest, n, e.ctl, e.at);
    trace := LoopTrace(pre, last, rest, n, e.ctl, e.at);
  }

  lemma StripJoin(trace: seq<Action>, a: seq<Action>, b: seq<Action>, n: nat, placed: bool)
    requires placed ==> trace == Repeat(a, n) + b + [STOP_ACTION]
    requires |trace| == n * |a| + |b| + 1 ==> placed
    ensures StripAll(trace) == Repeat(StripAll(a), n) + StripAll(b) + [STOP_ACTION] <==> placed
  {
    StripConcat(Repeat(a, n), b);
    StripConcat(Repeat(a, n) + b, [STOP_ACTION]);
    StripRepeat(a, n);
    RepeatLength(StripAll(a), n);
    assert StripAll([STOP_ACTION]) == [STOP_ACTION];
  }

  lemma ScansGood(calls: seq<Call>, ts: seq<Table>, lo: nat, hi: nat, lead: bool, p: Params, regs: seq<int>, first: nat)
    requires ValidTables(ts) && ValidCalls(calls) && lo <= hi && first == FirstInstructions(WithAcquire(calls), p)
    ensures Elements(Scans(calls, ts, lo, hi, lead, p, regs))
    ensures FirstCount(Scans(calls, ts, lo, hi, lead, p, regs)) == if lo < hi then first else 0
    ensures lo < hi ==> Scans(calls, ts, lo, hi, lead, p, regs) != [] && first > 0
  {
    ScansMeaning(calls, ts, lo, hi, lead, p, regs, START_CONTROL, 0.0);
    if lo < hi {
      ScansCounts(calls, WithAcquire(calls), ts, lo, hi, lead, p, regs);
    }
  }

  /** What BodyPerforms asks of a body and a rest. */
  ghost predicate GoodLines(body: seq<Line>, rest: seq<Line>) {
    && body != [] && Elements(body) && Elements(rest) && FirstCount(body) > 0
    && (FirstCount(rest) == 0 || FirstCount(rest) == FirstCount(body))
  }

  lemma GoodBody(calls: seq<Call>, ts: seq<Table>, plan: LoopPlan, p: Params, regs: seq<int>)
    requires ValidTables(ts) && ValidCalls(calls) && plan.cycle >= 1
    ensures GoodLines(BodyOf(calls, ts, plan, p, regs), RestOf(calls, ts, plan, p, regs))
  {
    hide Scans, FirstInstructions, WithAcquire, Elements, FirstCount, ValidCalls, ValidTables;
    var first := FirstInstructions(WithAcquire(calls), p);
    ScansGood(calls, ts, 0, plan.cycle, true, p, regs, first);
    ScansGood(calls, ts, plan.cycle, plan.cycle + plan.rem, false, p, regs, first);
  }

  lemma BodyStripped(body: seq<Line>, rest: seq<Line>, n: nat, nt: nat, ix: nat, e: Exps, s: seq<Action>,
                     r: seq<Action>)
      returns (trace: seq<Action>)
    requires GoodLines(body, rest) && Fresh(e) && n >= 2
    requires s == StripAll(Acts(body, e.ctl, e.at))
    requires r == StripAll(Acts(rest, ControlAfter(body, e.ctl, e.at), e.at))
    ensures var pre, last := body[..|body| - 1], body[|body| - 1];
            && Performs(Compile(FidLines(pre, last, rest, n, nt, ix), e).board, trace)
            && (StripAll(trace) == Repeat(s, n) + r + [STOP_ACTION] <==> WellPlaced(pre, last))
            && (|trace| == |Repeat(s, n) + r + [STOP_ACTION]| ==> WellPlaced(pre, last))
  {
    RepeatLength(s, n);
    trace := BodyPerforms(body, rest, n, nt, ix, e);
    StripJoin(trace, Acts(body, e.ctl, e.at), Acts(rest, ControlAfter(body, e.ctl, e.at), e.at), n,
              WellPlaced(body[..|body| - 1], body[|body| - 1]));
  }

  lemma BodyMeaning(calls: seq<Call>, ts: seq<Table>, plan: LoopPlan, p: Params, regs: seq<int>, ctl: Control, at: real)
    requires ValidTables(ts) && ValidCalls(calls)
    ensures var body, rest := BodyOf(calls, ts, plan, p, regs), RestOf(calls, ts, plan, p, regs);
            && RefScans(false, calls, ts, 0, plan.cycle, p, regs, at) == StripAll(Acts(body, ctl, at))
            && RefScans(false, calls, ts, plan.cycle, plan.cycle + plan.rem, p, regs, at)
               == StripAll(Acts(rest, ControlAfter(body, ctl, at), at))
  {
    hide Scans, Acts, RefScans, StripAll, ControlAfter;
    var body := BodyOf(calls, ts, plan, p, regs);
    ScansMeaning(calls, ts, 0, plan.cycle, true, p, regs, ctl, at);
    ScansMeaning(calls, ts, plan.cycle, plan.cycle + plan.rem, false, p, regs, ControlAfter(body, ctl, at), at);
  }

  /** The loop's lines and the remainder's, compiled from a fresh state, in terms of scans. */
  lemma LoopedScans(calls: seq<Call>, ts: seq<Table>, plan: LoopPlan, p: Params, regs: seq<int>, ix: nat, e: Exps,
                    body: seq<Line>, rest: seq<Line>) returns (trace: seq<Action>)
    requires ValidTables(ts) && ValidCalls(calls) && plan.loops >= 2 && plan.cycle >= 1 && Fresh(e)
    requires body == BodyOf(calls, ts, plan, p, regs) && rest == RestOf(calls, ts, plan, p, regs)
    ensures body != []
    ensures Performs(Compile(FidLines(body[..|body| - 1], body[|body| - 1], rest, plan.loops, p.nt, ix), e).board,
            trace)
    ensures StripAll(trace) == LoopedRef(false, calls, ts, plan, p, regs, e.at)
            <==> LoopPlacedWell(calls, p, plan.cycle)
    ensures |trace| == |LoopedRef(false, calls, ts, plan, p, regs, e.at)| ==> LoopPlacedWell(calls, p, plan.cycle)
  {
    hide Scans, Acts, RefScans, StripAll, Compile, Performs;
    GoodBody(calls, ts, plan, p, regs);
    BodyMeaning(calls, ts, plan, p, regs, e.ctl, e.at);
    PlacedWellOnLines(calls, ts, plan.cycle, p, regs);
    trace := BodyStripped(body, rest, plan.loops, p.nt, ix, e, RefScans(false, calls, ts, 0, plan.cycle, p, regs, e.at),
                          RefScans(false, calls, ts, plan.cycle, plan.cycle + plan.rem, p, regs, e.at));
  }

  /** The phase cycle `loops` times, the scans left over, and STOP. */
  function LoopedRef(full: bool, calls: seq<Call>, ts: seq<Table>, plan: LoopPlan, p: Params, regs: seq<int>,
                     at: real): seq<Action>
    requires ValidTables(ts) && ValidCalls(calls)
  {
    Repeat(RefScans(full, calls, ts, 0, plan.cycle, p, regs, at), plan.loops)
    + RefScans(full, calls, ts, plan.cycle, plan.cycle + plan.rem, p, regs, at) + [STOP_ACTION]
  }

  /** nt scans and STOP. */
  function NtScans(full: bool, calls: seq<Call>, p: Params, regs: seq<int>, at: real): seq<Action>
    requires ValidCalls(calls)
  {
    RefScans(full, calls, EmittedTables(calls, p), 0, p.nt, p, regs, at) + [STOP_ACTION]
  }

  /** A looped FID performs, power and status aside, its phase cycle `loops` times and then the
      scans left over, if and only if the loop is placed well. */
  lemma LoopedFid(calls: seq<Call>, p: Params, regs: seq<int>, ix: nat, e: Exps) returns (trace: seq<Action>)
    requires ValidCalls(calls) && Plan(calls, p).loops > 0
    ensures Performs(FidState(calls, p, regs, ix, e).board, trace)
    ensures StripAll(trace) == LoopedRef(false, calls, EmittedTables(calls, p), Plan(calls, p), p, regs, e.at)
            <==> LoopPlacedWell(calls, p, Plan(calls, p).cycle)
    ensures |trace| == |LoopedRef(false, calls, EmittedTables(calls, p), Plan(calls, p), p, regs, e.at)|
            ==> LoopPlacedWell(calls, p, Plan(calls, p).cycle)
  {
    hide Performs, LoopedRef, LoopPlacedWell, StripAll, Scans, FidState, FidLines;
    PlanIs(calls, p);
    LoopShape(calls, p, regs, ix, e);
    var plan, ts := Plan(calls, p), EmittedTables(calls, p);
    trace := LoopedScans(calls, ts, plan, p, regs, ix, HeaderState(e), BodyOf(calls, ts, plan, p, regs),
        RestOf(calls, ts, plan, p, regs));
  }

  lemma LoopedRefIsNtScans(full: bool, calls: seq<Call>, p: Params, regs: seq<int>, at: real)
    requires ValidCalls(calls) && Plan(calls, p).loops > 0
    requires UsesDivide(WithAcquire(calls), EmittedTables(calls, p), Plan(calls, p).cycle)
    ensures LoopedRef(full, calls, EmittedTables(calls, p), Plan(calls, p), p, regs, at)
            == NtScans(full, calls, p, regs, at)
  {
    hide RefScans, UsesDivide, Repeat, Plan, WithAcquire;
    var plan := Plan(calls, p);
    PlanIs(calls, p);
    LoopedIsPlain(full, calls, EmittedTables(calls, p), plan.loops, plan.cycle, plan.rem, p, regs, at);
  }

  /** MAIN RESULT.  With every cycle of the sequence dividing the loop's, the board performs
      exactly nt scans, power and status aside, if and only if the loop is placed well. */
  lemma RunsNtScans(calls: seq<Call>, p: Params, regs: seq<int>, ix: nat, e: Exps) returns (trace: seq<Action>)
    requires ValidCalls(calls) && Plan(calls, p).loops > 0
    requires UsesDivide(WithAcquire(calls), EmittedTables(calls, p), Plan(calls, p).cycle)
    ensures Performs(FidState(calls, p, regs, ix, e).board, trace)
    ensures StripAll(trace) == NtScans(false, calls, p, regs, e.at) <==> LoopPlacedWell(calls, p, Plan(calls, p).cycle)
  {
    trace := LoopedFid(calls, p, regs, ix, e);
    LoopedRefIsNtScans(false, calls, p, regs, e.at);
  }

  /** Without a loop the program is the lines of the nt scans, one after the other. */
  lemma UnloopedTrace(calls: seq<Call>, p: Params, regs: seq<int>, ix: nat, e: Exps) returns (trace: seq<Action>)
    requires ValidCalls(calls) && Plan(calls, p).loops == 0
    ensures Performs(FidState(calls, p, regs, ix, e).board, trace)
    ensures trace == Acts(Remainder(calls, p, regs), START_CONTROL, e.at) + [STOP_ACTION]
  {
    hide Scans, Acts, RefScans, Performs, TimeOfLines, Plan;
    var h, rest := HeaderState(e), Remainder(calls, p, regs);
    var acts := Acts(rest, h.ctl, h.at);
    PlanIs(calls, p);
    CompileFidText(calls, p, regs, ix, e);
    assert [] + rest == rest;
    ScansMeaning(calls, EmittedTables(calls, p), 0, p.nt, false, p, regs, h.ctl, h.at);
    CompilePlain(rest, h);
    CompileConcat(rest, [PulseprogDone(ix)], h);
    CompileSingle(PulseprogDone(ix), Compile(rest, h));
    PlacedOne(acts, [], |acts|, Continue);
    assert Place(acts, |acts|, Continue) + Plain([]) + [STOP_INST] == [] + Plain(acts) + [STOP_INST];
    trace := acts + [] + [STOP_ACTION];
    assert acts + [] == acts;
  }

  /** Without a loop the board performs exactly nt scans, whatever the lengths of the cycles. */
  lemma RunsUnloopedScans(calls: seq<Call>, p: Params, regs: seq<int>, ix: nat, e: Exps) returns (trace: seq<Action>)
    requires ValidCalls(calls) && Plan(calls, p).loops == 0
    ensures Performs(FidState(calls, p, regs, ix, e).board, trace)
    ensures StripAll(trace) == NtScans(false, calls, p, regs, e.at)
  {
    hide Scans, Acts, RefScans, Performs, Plan, FidState;
    PlanIs(calls, p);
    trace := UnloopedTrace(calls, p, regs, ix, e);
    ScansMeaning(calls, EmittedTables(calls, p), 0, p.nt, false, p, regs, START_CONTROL, e.at);
    StripConcat(Acts(Remainder(calls, p, regs), START_CONTROL, e.at), [STOP_ACTION]);
    assert StripAll([STOP_ACTION]) == [STOP_ACTION];
  }
}
