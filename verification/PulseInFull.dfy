/** When the board's trace is the scans asked for with nothing left out: power and status carry over
    from one scan to the next, and only looped scans set the transmitter power. */
module PulseInFull {
  import opened Phase
  import opened PulseText
  import opened Board
  import opened B12Compiler
  import opened PulseMeaning
  import opened PulseCorrectness
  import opened PulseTheorems

  // ----- what a scan sets itself, and what it leaves -------------------------------------------------------

  /** The sequence sets the power before its first pulse. */
  predicate PowerFirst(calls: seq<Call>) {
    if calls == [] then true
    else if calls[0].RlPower? then true
    else if (calls[0].Pulse? || calls[0].RgPulse?) && calls[0].width > 0.0 then false
    else PowerFirst(calls[1..])
  }

  /** The sequence sets the status before anything is performed. */
  predicate StatusFirst(calls: seq<Call>, p: Params) {
    if calls == [] then true
    else if calls[0].Status? then true
    else CallCount(calls[0], p) == 0 && StatusFirst(calls[1..], p)
  }

  /** The status that a scan leaves. */
  function StatusLeft(calls: seq<Call>, p: Params, mps: int): int {
    if calls == [] then mps
    else StatusLeft(calls[1..], p, if calls[0].Status? then (if StatusOn(p.xm, calls[0].state) then 1 else 0) else mps)
  }

  /** The power register that a scan leaves in use. */
  function RegisterLeft(calls: seq<Call>, regs: seq<int>, reg: nat): nat {
    if calls == [] then reg
    else RegisterLeft(calls[1..], regs, if calls[0].RlPower? then RegisterOf(regs, Quantise(calls[0].amp)) else reg)
  }

  ghost predicate Shaped(ctl: Control) {
    ctl.shape == ShapeOf(ctl.amp)
  }

  lemma {:induction false} LeftIs(calls: seq<Call>, p: Params, regs: seq<int>, ctl: Control)
    requires Shaped(ctl)
    ensures var left := RefAfter(calls, p, regs, ctl);
            left.mps == StatusLeft(calls, p, ctl.mps) && left.amp == RegisterLeft(calls, regs, ctl.amp) && Shaped(left)
  {
    hide RegisterOf, Quantise, StatusOn, ShapeOf;
    if calls != [] {
      LeftIs(calls[1..], p, regs, RefControl(calls[0], p, regs, ctl));
    }
  }

  /** A second scan leaves what the first did. */
  lemma {:induction false} LeftStays(calls: seq<Call>, p: Params, regs: seq<int>, m: int, m': int, r: nat, r': nat)
    ensures StatusLeft(calls, p, m) == m || StatusLeft(calls, p, m) == StatusLeft(calls, p, m')
    ensures RegisterLeft(calls, regs, r) == r || RegisterLeft(calls, regs, r) == RegisterLeft(calls, regs, r')
    ensures StatusLeft(calls, p, StatusLeft(calls, p, m)) == StatusLeft(calls, p, m)
    ensures RegisterLeft(calls, regs, RegisterLeft(calls, regs, r)) == RegisterLeft(calls, regs, r)
  {
    LeftTwice(calls, p, regs, m, StatusLeft(calls, p, m), r, RegisterLeft(calls, regs, r));
    LeftTwice(calls, p, regs, m, m', r, r');
  }

  lemma {:induction false} LeftTwice(calls: seq<Call>, p: Params, regs: seq<int>, m: int, m': int, r: nat, r': nat)
    ensures (StatusLeft(calls, p, m) == m && StatusLeft(calls, p, m') == m')
            || StatusLeft(calls, p, m) == StatusLeft(calls, p, m')
    ensures (RegisterLeft(calls, regs, r) == r && RegisterLeft(calls, regs, r') == r')
            || RegisterLeft(calls, regs, r) == RegisterLeft(calls, regs, r')
  {
    hide RegisterOf, Quantise, StatusOn;
    if calls != [] {
      var c := calls[0];
      var on := if c.Status? then (if StatusOn(p.xm, c.state) then 1 else 0) else 0;
      var reg := if c.RlPower? then RegisterOf(regs, Quantise(c.amp)) else 0;
      LeftTwice(calls[1..], p, regs, if c.Status? then on else m, if c.Status? then on else m',
                if c.RlPower? then reg else r, if c.RlPower? then reg else r');
    }
  }

  // ----- when a scan can tell what it starts with -----------------------------------------------------------

  lemma SameJoin(a: seq<Action>, a': seq<Action>, b: seq<Action>, b': seq<Action>)
    requires |a| == |a'|
    ensures a + b == a' + b' <==> a == a' && b == b'
  {
    if a + b == a' + b' {
      assert a == (a + b)[..|a|] && b == (a + b)[|a|..];
      assert a' == (a' + b')[..|a|] && b' == (a' + b')[|a|..];
    }
  }

  /** What one call performs from two control states. */
  lemma CallTells(c: Call, ts: seq<Table>, i: nat, p: Params, c1: Control, c2: Control, at: real)
    requires ValidTables(ts) && c1.phaseReset == c2.phaseReset && Shaped(c1) && Shaped(c2)
    ensures |RefCall(c, ts, i, p, c1, at)| == |RefCall(c, ts, i, p, c2, at)|
    ensures RefCall(c, ts, i, p, c1, at) == RefCall(c, ts, i, p, c2, at)
            <==> (CallCount(c, p) == 0 || c1.mps == c2.mps)
                 && (c1.amp == c2.amp || !(c.Pulse? || c.RgPulse?) || c.width <= 0.0)
  {
    hide PhaseAt, ValidTables;
    var a1, a2 := RefCall(c, ts, i, p, c1, at), RefCall(c, ts, i, p, c2, at);
    if CallCount(c, p) > 0 {
      assert a1[0].mps == c1.mps && a2[0].mps == c2.mps;
      if c.Pulse? || c.RgPulse? {
        var k := if (if c.Pulse? then p.rof1 else c.rg1) > 0.0 then 1 else 0;
        assert a1[k].amp == c1.amp && a2[k].amp == c2.amp;
      }
    }
  }

  /** Two scans that start alike but for power and status are the same just when each of the two
      starts the same or is set before it shows. */
  lemma {:induction false} ScanTells(calls: seq<Call>, ts: seq<Table>, i: nat, p: Params, regs: seq<int>, c1: Control,
                                     c2: Control, at: real)
    requires ValidTables(ts) && ValidCalls(calls) && c1.phaseReset == c2.phaseReset && Shaped(c1) && Shaped(c2)
    ensures RefCalls(calls, ts, i, p, regs, c1, at) == RefCalls(calls, ts, i, p, regs, c2, at)
            <==> (c1.mps == c2.mps || StatusFirst(calls, p)) && (c1.amp == c2.amp || PowerFirst(calls))
  {
    hide PhaseAt, RegisterOf, Quantise, StatusOn, ValidTables, RefCall;
    if calls != [] {
      var c, ts' := calls[0], CallTables(calls[0], ts);
      var d1, d2 := RefControl(c, p, regs, c1), RefControl(c, p, regs, c2);
      CallTells(c, ts, i, p, c1, c2, at);
      ScanTells(calls[1..], ts', i, p, regs, d1, d2, at);
      SameJoin(RefCall(c, ts, i, p, c1, at), RefCall(c, ts, i, p, c2, at),
               RefCalls(calls[1..], ts', i, p, regs, d1, at), RefCalls(calls[1..], ts', i, p, regs, d2, at));
    }
  }

  function TxRegister(p: Params, regs: seq<int>): nat {
    RegisterOf(regs, Quantise(p.tpwrf))
  }

  /** A scan that begins with the status and the register in use is the scan asked for. */
  predicate ScanFits(own: seq<Call>, p: Params, regs: seq<int>, lead: bool, mps: int, reg: nat) {
    && (mps == 0 || StatusFirst(own, p))
    && (lead || reg == TxRegister(p, regs) || PowerFirst(own))
  }

  lemma OneScanFits(calls: seq<Call>, ts: seq<Table>, i: nat, lead: bool, p: Params, regs: seq<int>, ctl: Control,
                    at: real)
    requires ValidTables(ts) && ValidCalls(calls) && Shaped(ctl)
    ensures var own, acts := WithAcquire(calls), Acts(ScanLines(calls, ts, i, lead, p, regs), ctl, at);
            var left := ControlAfter(ScanLines(calls, ts, i, lead, p, regs), ctl, at);
            && (acts == RefScan(calls, ts, i, p, regs, at) <==> ScanFits(own, p, regs, lead, ctl.mps, ctl.amp))
            && Shaped(left) && left.mps == StatusLeft(own, p, ctl.mps)
            && left.amp == RegisterLeft(own, regs, if lead then TxRegister(p, regs) else ctl.amp)
  {
    hide ScanLines, Acts, RefCalls, RefAfter, ControlAfter, RegisterOf, Quantise, StatusFirst, PowerFirst, StatusLeft,
         RegisterLeft;
    var own, start, reg := WithAcquire(calls), ScanStart(lead, p, regs, ctl), TxRegister(p, regs);
    ScanMeaning(calls, ts, i, lead, p, regs, ctl, at);
    ScanTells(own, ts, i, p, regs, start, Control(0, reg, ShapeOf(reg), true), at);
    LeftIs(own, p, regs, start);
  }

  /** The control after some scans. */
  lemma {:induction false} ScansLeave(calls: seq<Call>, ts: seq<Table>, lo: nat, hi: nat, lead: bool, p: Params,
                                      regs: seq<int>, ctl: Control, at: real)
    requires ValidTables(ts) && ValidCalls(calls) && Shaped(ctl) && lo < hi
    ensures var own, left := WithAcquire(calls), ControlAfter(Scans(calls, ts, lo, hi, lead, p, regs), ctl, at);
            && Shaped(left) && left.mps == StatusLeft(own, p, ctl.mps)
            && left.amp == RegisterLeft(own, regs, if lead then TxRegister(p, regs) else ctl.amp)
    decreases hi
  {
    hide ScanLines, ControlAfter, Acts, WithAcquire, TxRegister, StatusLeft, RegisterLeft, Shaped, ScanFits, RefScan;
    var before, scan := Scans(calls, ts, lo, hi - 1, lead, p, regs), ScanLines(calls, ts, hi - 1, lead, p, regs);
    var mid, reg := ControlAfter(before, ctl, at), TxRegister(p, regs);
    ActsConcat(before, scan, ctl, at);
    NoActs(ctl, at);
    if lo < hi - 1 {
      ScansLeave(calls, ts, lo, hi - 1, lead, p, regs, ctl, at);
      LeftStays(WithAcquire(calls), p, regs, ctl.mps, 0, ctl.amp, 0);
    }
    OneScanFits(calls, ts, hi - 1, lead, p, regs, mid, at);
  }

  lemma {:induction false} RefsStripped(calls: seq<Call>, ts: seq<Table>, lo: nat, hi: nat, p: Params, regs: seq<int>,
                                        at: real)
    requires ValidTables(ts) && ValidCalls(calls) && lo <= hi
    ensures StripAll(RefScans(true, calls, ts, lo, hi, p, regs, at)) == RefScans(false, calls, ts, lo, hi, p, regs, at)
    decreases hi
  {
    hide RefScan, StripAll;
    if lo < hi {
      RefsStripped(calls, ts, lo, hi - 1, p, regs, at);
      StripConcat(RefScans(true, calls, ts, lo, hi - 1, p, regs, at), RefScan(calls, ts, hi - 1, p, regs, at));
    } else {
      assert StripAll([]) == [];
    }
  }

  lemma SameLength(calls: seq<Call>, ts: seq<Table>, lo: nat, hi: nat, lead: bool, p: Params, regs: seq<int>,
                   ctl: Control, at: real)
    requires ValidTables(ts) && ValidCalls(calls) && lo <= hi
    ensures |Acts(Scans(calls, ts, lo, hi, lead, p, regs), ctl, at)| == |RefScans(true, calls, ts, lo, hi, p, regs, at)|
  {
    hide Scans, Acts, RefScans;
    ScansMeaning(calls, ts, lo, hi, lead, p, regs, ctl, at);
    RefsStripped(calls, ts, lo, hi, p, regs, at);
  }

  /** A row of scans performs the scans asked for, power and status included, just when the first
      fits what it finds and any other fits what a scan leaves. */
  lemma {:induction false} ScansFit(calls: seq<Call>, ts: seq<Table>, lo: nat, hi: nat, lead: bool, p: Params,
                                    regs: seq<int>, ctl: Control, at: real)
    requires ValidTables(ts) && ValidCalls(calls) && Shaped(ctl) && lo <= hi
    ensures var own, reg := WithAcquire(calls), if lead then TxRegister(p, regs) else ctl.amp;
            Acts(Scans(calls, ts, lo, hi, lead, p, regs), ctl, at) == RefScans(true, calls, ts, lo, hi, p, regs, at)
            <==> && (lo < hi ==> ScanFits(own, p, regs, lead, ctl.mps, ctl.amp))
                 && (lo + 1 < hi
                    ==> ScanFits(own, p, regs, lead, StatusLeft(own, p, ctl.mps), RegisterLeft(own, regs, reg)))
    decreases hi
  {
    hide ScanLines, Acts, ControlAfter, RefScan, WithAcquire, TxRegister, StatusLeft, RegisterLeft, Shaped, ScanFits;
    NoActs(ctl, at);
    if lo < hi {
      var before, scan := Scans(calls, ts, lo, hi - 1, lead, p, regs), ScanLines(calls, ts, hi - 1, lead, p, regs);
      var mid := ControlAfter(before, ctl, at);
      ActsConcat(before, scan, ctl, at);
      ScansFit(calls, ts, lo, hi - 1, lead, p, regs, ctl, at);
      SameLength(calls, ts, lo, hi - 1, lead, p, regs, ctl, at);
      if lo < hi - 1 { ScansLeave(calls, ts, lo, hi - 1, lead, p, regs, ctl, at); }
      OneScanFits(calls, ts, hi - 1, lead, p, regs, mid, at);
      SameJoin(Acts(before, ctl, at), RefScans(true, calls, ts, lo, hi - 1, p, regs, at),
               Acts(scan, mid, at), RefScan(calls, ts, hi - 1, p, regs, at));
    }
  }


  // ----- the looped program -------------------------------------------------------------------------------

  lemma {:induction false} SameRepeat(s: seq<Action>, t: seq<Action>, n: nat)
    requires |s| == |t| && n >= 1
    ensures |Repeat(s, n)| == |Repeat(t, n)| && (Repeat(s, n) == Repeat(t, n) <==> s == t)
  {
    if n > 1 { SameRepeat(s, t, n - 1); }
    RepeatLength(s, n);
    RepeatLength(t, n);
    SameJoin(s, t, Repeat(s, n - 1), Repeat(t, n - 1));
  }

  lemma SameTrace(s: seq<Action>, t: seq<Action>, r: seq<Action>, u: seq<Action>, n: nat)
    requires |s| == |t| && n >= 1
    ensures Repeat(s, n) + r + [STOP_ACTION] == Repeat(t, n) + u + [STOP_ACTION] <==> s == t && r == u
  {
    hide Repeat;
    SameRepeat(s, t, n);
    SameEnd(Repeat(s, n) + r, Repeat(t, n) + u, STOP_ACTION);
    SameJoin(Repeat(s, n), Repeat(t, n), r, u);
  }

  lemma SameEnd(a: seq<Action>, b: seq<Action>, x: Action)
    ensures a + [x] == b + [x] <==> a == b
  {
    if a + [x] == b + [x] {
      assert a == (a + [x])[..|a + [x]| - 1] && b == (b + [x])[..|b + [x]| - 1];
    }
  }

  /** The scans of a loop and those left over find the status and the power they ask for: the status
      is off again after a scan, or set before it shows, or there is one scan in the loop; and for
      scans left over the power is the transmitter's again, or set before a pulse. */
  predicate LoopKeeps(own: seq<Call>, p: Params, regs: seq<int>, plan: LoopPlan) {
    && (plan.cycle <= 1 || StatusLeft(own, p, 0) == 0 || StatusFirst(own, p))
    && (plan.rem == 0 || RegisterLeft(own, regs, TxRegister(p, regs)) == TxRegister(p, regs) || PowerFirst(own))
  }

  lemma BodyAndRestFit(calls: seq<Call>, ts: seq<Table>, plan: LoopPlan, p: Params, regs: seq<int>, at: real)
    requires ValidTables(ts) && ValidCalls(calls) && plan.cycle >= 1 && plan.rem < plan.cycle
    ensures var body, rest := BodyOf(calls, ts, plan, p, regs), RestOf(calls, ts, plan, p, regs);
            && Acts(body, START_CONTROL, at) == RefScans(true, calls, ts, 0, plan.cycle, p, regs, at)
            && Acts(rest, ControlAfter(body, START_CONTROL, at), at)
               == RefScans(true, calls, ts, plan.cycle, plan.cycle + plan.rem, p, regs, at)
            <==> LoopKeeps(WithAcquire(calls), p, regs, plan)
  {
    hide Scans, Acts, RefScans, WithAcquire, TxRegister, StatusLeft, RegisterLeft, StatusFirst, PowerFirst,
         ControlAfter;
    var own, ctl := WithAcquire(calls), ControlAfter(BodyOf(calls, ts, plan, p, regs), START_CONTROL, at);
    ScansFit(calls, ts, 0, plan.cycle, true, p, regs, START_CONTROL, at);
    ScansLeave(calls, ts, 0, plan.cycle, true, p, regs, START_CONTROL, at);
    ScansFit(calls, ts, plan.cycle, plan.cycle + plan.rem, false, p, regs, ctl, at);
    LeftStays(own, p, regs, 0, 0, TxRegister(p, regs), 0);
  }

  lemma LoopedInFull(calls: seq<Call>, ts: seq<Table>, plan: LoopPlan, p: Params, regs: seq<int>, ix: nat, e: Exps,
                     body: seq<Line>, rest: seq<Line>, trace: seq<Action>)
    requires ValidTables(ts) && ValidCalls(calls) && plan.loops >= 2 && plan.rem < plan.cycle
    requires Fresh(e) && e.ctl == START_CONTROL
    requires body == BodyOf(calls, ts, plan, p, regs) && rest == RestOf(calls, ts, plan, p, regs)
    requires LoopPlacedWell(calls, p, plan.cycle) && body != []
    requires Performs(Compile(FidLines(body[..|body| - 1], body[|body| - 1], rest, plan.loops, p.nt, ix), e).board,
             trace)
    ensures trace == LoopedRef(true, calls, ts, plan, p, regs, e.at) <==> LoopKeeps(WithAcquire(calls), p, regs, plan)
  {
    hide Scans, Compile, FidLines, Performs, WellPlaced, LoopPlacedWell, ControlAfter, Repeat, LoopKeeps, Acts,
         RefScans, ValidTables, ValidCalls;
    GoodBody(calls, ts, plan, p, regs);
    PlacedWellOnLines(calls, ts, plan.cycle, p, regs);
    var trace' := BodyPerforms(body, rest, plan.loops, p.nt, ix, e);
    PerformsOnce(Compile(FidLines(body[..|body| - 1], body[|body| - 1], rest, plan.loops, p.nt, ix), e).board, trace,
                 trace');
    SameLength(calls, ts, 0, plan.cycle, true, p, regs, e.ctl, e.at);
    SameTrace(Acts(body, e.ctl, e.at), RefScans(true, calls, ts, 0, plan.cycle, p, regs, e.at),
              Acts(rest, ControlAfter(body, e.ctl, e.at), e.at),
              RefScans(true, calls, ts, plan.cycle, plan.cycle + plan.rem, p, regs, e.at), plan.loops);
    BodyAndRestFit(calls, ts, plan, p, regs, e.at);
  }

  lemma LoopedRefStripped(calls: seq<Call>, ts: seq<Table>, plan: LoopPlan, p: Params, regs: seq<int>, at: real)
    requires ValidTables(ts) && ValidCalls(calls)
    ensures StripAll(LoopedRef(true, calls, ts, plan, p, regs, at)) == LoopedRef(false, calls, ts, plan, p, regs, at)
  {
    hide RefScans;
    var s, r := RefScans(true, calls, ts, 0, plan.cycle, p, regs, at),
        RefScans(true, calls, ts, plan.cycle, plan.cycle + plan.rem, p, regs, at);
    RefsStripped(calls, ts, 0, plan.cycle, p, regs, at);
    RefsStripped(calls, ts, plan.cycle, plan.cycle + plan.rem, p, regs, at);
    StripConcat(Repeat(s, plan.loops), r);
    StripConcat(Repeat(s, plan.loops) + r, [STOP_ACTION]);
    StripRepeat(s, plan.loops);
    assert StripAll([STOP_ACTION]) == [STOP_ACTION];
  }

  /** The whole trace of a looped program, power and status included, is its scans as createPS numbers
      them if and only if the loop is placed well and keeps the status and the power. */
  lemma RunsLoopInFull(calls: seq<Call>, p: Params, regs: seq<int>, ix: nat, e: Exps, trace: seq<Action>)
    requires ValidCalls(calls) && Plan(calls, p).loops > 0 && Performs(FidState(calls, p, regs, ix, e).board, trace)
    ensures trace == LoopedRef(true, calls, EmittedTables(calls, p), Plan(calls, p), p, regs, e.at)
            <==> LoopPlacedWell(calls, p, Plan(calls, p).cycle)
                 && LoopKeeps(WithAcquire(calls), p, regs, Plan(calls, p))
  {
    hide Scans, Performs, LoopPlacedWell, FidState, FidLines, LoopKeeps, LoopedRef, StripAll, Plan;
    PlanIs(calls, p);
    var plan, ts := Plan(calls, p), EmittedTables(calls, p);
    if LoopPlacedWell(calls, p, plan.cycle) {
      LoopShape(calls, p, regs, ix, e);
      PlanIs(calls, p);
      LoopedInFull(calls, ts, plan, p, regs, ix, HeaderState(e), BodyOf(calls, ts, plan, p, regs),
                   RestOf(calls, ts, plan, p, regs), trace);
    } else {
      var trace' := LoopedFid(calls, p, regs, ix, e);
      PerformsOnce(FidState(calls, p, regs, ix, e).board, trace, trace');
      LoopedRefStripped(calls, ts, plan, p, regs, e.at);
    }
  }

  /** So with every cycle of the sequence dividing the loop's, it is nt scans if and only if that. */
  lemma RunsNtScansInFull(calls: seq<Call>, p: Params, regs: seq<int>, ix: nat, e: Exps, trace: seq<Action>)
    requires ValidCalls(calls) && Plan(calls, p).loops > 0 && Performs(FidState(calls, p, regs, ix, e).board, trace)
    requires UsesDivide(WithAcquire(calls), EmittedTables(calls, p), Plan(calls, p).cycle)
    ensures trace == NtScans(true, calls, p, regs, e.at)
            <==> LoopPlacedWell(calls, p, Plan(calls, p).cycle)
                 && LoopKeeps(WithAcquire(calls), p, regs, Plan(calls, p))
  {
    hide Performs, LoopPlacedWell, FidState, LoopKeeps, LoopedRef, NtScans, UsesDivide, Plan;
    RunsLoopInFull(calls, p, regs, ix, e, trace);
    LoopedRefIsNtScans(true, calls, p, regs, e.at);
  }

  // ----- the program without a loop ---------------------------------------------------------------------------

  /** Without a loop the first scan finds the status off and the power full, and any other finds what a
      scan leaves. */
  predicate UnloopedKeeps(own: seq<Call>, p: Params, regs: seq<int>) {
    && (p.nt <= 1 || StatusLeft(own, p, 0) == 0 || StatusFirst(own, p))
    && (p.nt == 0 || PowerFirst(own)
        || (TxRegister(p, regs) == 0 && (p.nt == 1 || RegisterLeft(own, regs, 0) == 0)))
  }

  lemma RunsUnloopedInFull(calls: seq<Call>, p: Params, regs: seq<int>, ix: nat, e: Exps, trace: seq<Action>)
    requires ValidCalls(calls) && Plan(calls, p).loops == 0 && Performs(FidState(calls, p, regs, ix, e).board, trace)
    ensures trace == NtScans(true, calls, p, regs, e.at) <==> UnloopedKeeps(WithAcquire(calls), p, regs)
  {
    hide Scans, Acts, RefScans, Performs, FidState, Plan, WithAcquire, TxRegister, StatusLeft, RegisterLeft,
         StatusFirst, PowerFirst;
    var ts := EmittedTables(calls, p);
    PlanIs(calls, p);
    var trace' := UnloopedTrace(calls, p, regs, ix, e);
    PerformsOnce(FidState(calls, p, regs, ix, e).board, trace, trace');
    ScansFit(calls, ts, 0, p.nt, false, p, regs, START_CONTROL, e.at);
    SameEnd(Acts(Remainder(calls, p, regs), START_CONTROL, e.at), RefScans(true, calls, ts, 0, p.nt, p, regs, e.at),
            STOP_ACTION);
  }

  // ----- a sequence that leaves the power alone ------------------------------------------------------------------

  /** No pulse asks for anything but the power it finds. */
  predicate NeverSetsPower(calls: seq<Call>) {
    forall k :: 0 <= k < |calls| ==> !calls[k].RlPower?
  }

  ghost predicate AllAt(acts: seq<Action>, reg: nat) {
    forall k :: 0 <= k < |acts| && acts[k].txOn ==> acts[k].amp == reg
  }

  lemma CallKeepsPower(c: Call, ts: seq<Table>, i: nat, p: Params, regs: seq<int>, ctl: Control, at: real)
    requires ValidTables(ts) && !c.RlPower?
    ensures AllAt(RefCall(c, ts, i, p, ctl, at), ctl.amp) && RefControl(c, p, regs, ctl).amp == ctl.amp
  {
    hide PhaseAt, StatusOn;
  }

  lemma {:induction false} ScanKeepsPower(calls: seq<Call>, ts: seq<Table>, i: nat, p: Params, regs: seq<int>,
                                          ctl: Control, at: real)
    requires ValidTables(ts) && ValidCalls(calls) && NeverSetsPower(calls)
    ensures AllAt(RefCalls(calls, ts, i, p, regs, ctl, at), ctl.amp)
  {
    hide RefCall, RefControl, ValidTables;
    if calls != [] {
      CallKeepsPower(calls[0], ts, i, p, regs, ctl, at);
      ScanKeepsPower(calls[1..], CallTables(calls[0], ts), i, p, regs, RefControl(calls[0], p, regs, ctl), at);
    }
  }

  lemma {:induction false} RegisterKept(calls: seq<Call>, regs: seq<int>, reg: nat)
    requires NeverSetsPower(calls)
    ensures RegisterLeft(calls, regs, reg) == reg
  {
    if calls != [] { RegisterKept(calls[1..], regs, reg); }
  }

  lemma OwnKeepsRegister(calls: seq<Call>, regs: seq<int>, reg: nat)
    requires NeverSetsPower(calls)
    ensures RegisterLeft(WithAcquire(calls), regs, reg) == reg
  {
    RegisterKept(WithAcquire(calls), regs, reg);
  }

  lemma AllAtConcat(a: seq<Action>, b: seq<Action>, reg: nat)
    requires AllAt(a, reg) && AllAt(b, reg)
    ensures AllAt(a + b, reg)
  {
  }

  lemma ScanLinesAt(calls: seq<Call>, ts: seq<Table>, i: nat, p: Params, regs: seq<int>, ctl: Control, at: real)
    requires ValidTables(ts) && ValidCalls(calls) && NeverSetsPower(calls)
    ensures AllAt(Acts(ScanLines(calls, ts, i, false, p, regs), ctl, at), ctl.amp)
  {
    hide Acts, ScanLines, RefCalls, AllAt, RegisterOf, Quantise;
    ScanMeaning(calls, ts, i, false, p, regs, ctl, at);
    ScanKeepsPower(WithAcquire(calls), ts, i, p, regs, ScanStart(false, p, regs, ctl), at);
  }

  lemma {:induction false} ScansKeepPower(calls: seq<Call>, ts: seq<Table>, lo: nat, hi: nat, p: Params, regs: seq<int>,
                                          ctl: Control, at: real)
    requires ValidTables(ts) && ValidCalls(calls) && NeverSetsPower(calls) && lo <= hi && Shaped(ctl)
    ensures AllAt(Acts(Scans(calls, ts, lo, hi, false, p, regs), ctl, at), ctl.amp)
    decreases hi
  {
    hide ScanLines, ControlAfter, AllAt, Acts, Shaped, WithAcquire, RegisterLeft, StatusLeft, NeverSetsPower;
    NoActs(ctl, at);
    if lo == hi {
      NothingAt(ctl.amp);
    } else {
      var before, scan := Scans(calls, ts, lo, hi - 1, false, p, regs), ScanLines(calls, ts, hi - 1, false, p, regs);
      var mid := ControlAfter(before, ctl, at);
      ScansKeepPower(calls, ts, lo, hi - 1, p, regs, ctl, at);
      if lo < hi - 1 { ScansLeave(calls, ts, lo, hi - 1, false, p, regs, ctl, at); }
      OwnKeepsRegister(calls, regs, ctl.amp);
      ScanLinesAt(calls, ts, hi - 1, p, regs, mid, at);
      ActsConcat(before, scan, ctl, at);
      AllAtConcat(Acts(before, ctl, at), Acts(scan, mid, at), ctl.amp);
    }
  }

  lemma NothingAt(reg: nat)
    ensures AllAt([], reg)
  {
  }

  /** Too few scans for a loop: a sequence that leaves the power alone is pulsed at full power,
      whatever tpwrf asks for, because only looped scans start with the transmitter power. */
  lemma UnloopedRunsAtFullPower(calls: seq<Call>, p: Params, regs: seq<int>, ix: nat, e: Exps, trace: seq<Action>)
    requires ValidCalls(calls) && NeverSetsPower(calls) && Plan(calls, p).loops == 0
    requires Performs(FidState(calls, p, regs, ix, e).board, trace)
    ensures AllAt(trace, 0)
  {
    hide Scans, Acts, Performs, TimeOfLines, AllAt, Plan, FidState, Place;
    var h, rest := HeaderState(e), Remainder(calls, p, regs);
    PlanIs(calls, p);
    var trace' := UnloopedTrace(calls, p, regs, ix, e);
    PerformsOnce(FidState(calls, p, regs, ix, e).board, trace, trace');
    ScansKeepPower(calls, EmittedTables(calls, p), 0, p.nt, p, regs, h.ctl, h.at);
    StopAt();
    AllAtConcat(Acts(rest, h.ctl, h.at), [STOP_ACTION], 0);
  }

  lemma StopAt()
    ensures AllAt([STOP_ACTION], 0)
  {
  }
}
