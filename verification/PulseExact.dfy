/** When a looped program is nt scans, with nothing asked of the lengths of the phase cycles. */
module PulseExact {
  import opened Arithmetic
  import opened Phase
  import opened PulseText
  import opened Board
  import opened B12Compiler
  import opened PulseMeaning
  import opened PulseTheorems
  import opened PulsePhases
  import opened PulseInFull

  /** The phases that a call reads at indices i and j are the same. */
  predicate CallReadsAlike(c: Call, ts: seq<Table>, i: nat, j: nat)
    requires ValidTables(ts)
  {
    match c
    case Pulse(width, phase) => width <= 0.0 || RefPhase(PhaseAt(ts, phase, i)) == RefPhase(PhaseAt(ts, phase, j))
    case RgPulse(width, phase, _, _) =>
      width <= 0.0 || RefPhase(PhaseAt(ts, phase, i)) == RefPhase(PhaseAt(ts, phase, j))
    case Acquire => PhaseAt(ts, OPH, i) == PhaseAt(ts, OPH, j)
    case _ => true
  }

  predicate ReadsAlike(calls: seq<Call>, ts: seq<Table>, i: nat, j: nat)
    requires ValidTables(ts) && ValidCalls(calls)
  {
    calls == [] || (CallReadsAlike(calls[0], ts, i, j) && ReadsAlike(calls[1..], CallTables(calls[0], ts), i, j))
  }

  lemma CallReads(full: bool, c: Call, ts: seq<Table>, i: nat, j: nat, p: Params, ctl: Control, at: real)
    requires ValidTables(ts)
    ensures |RefCall(c, ts, i, p, ctl, at)| == |RefCall(c, ts, j, p, ctl, at)|
    ensures View(full, RefCall(c, ts, i, p, ctl, at)) == View(full, RefCall(c, ts, j, p, ctl, at))
            <==> CallReadsAlike(c, ts, i, j)
  {
    hide PhaseAt, RefPhase, ValidTables;
    var a, b := RefCall(c, ts, i, p, ctl, at), RefCall(c, ts, j, p, ctl, at);
    var v, w := View(full, a), View(full, b);
    if c.Pulse? || c.RgPulse? {
      if c.width > 0.0 {
        var k := if (if c.Pulse? then p.rof1 else c.rg1) > 0.0 then 1 else 0;
        assert v[k].txPhase == RefPhase(PhaseAt(ts, c.phase, i)) && w[k].txPhase == RefPhase(PhaseAt(ts, c.phase, j));
      }
    } else if c.Acquire? {
      var k := |a| - 1;
      assert v[k].rec == PhaseAt(ts, OPH, i) && w[k].rec == PhaseAt(ts, OPH, j);
    }
  }

  lemma ViewConcat(full: bool, a: seq<Action>, b: seq<Action>)
    ensures View(full, a + b) == View(full, a) + View(full, b) && |View(full, a)| == |a|
  {
    StripConcat(a, b);
  }

  /** Two indices give the same scan just when every table that the scan reads has the same phase there. */
  lemma {:induction false} ScanReads(full: bool, calls: seq<Call>, ts: seq<Table>, i: nat, j: nat, p: Params,
                                     regs: seq<int>, ctl: Control, at: real)
    requires ValidTables(ts) && ValidCalls(calls)
    ensures |RefCalls(calls, ts, i, p, regs, ctl, at)| == |RefCalls(calls, ts, j, p, regs, ctl, at)|
    ensures View(full, RefCalls(calls, ts, i, p, regs, ctl, at)) == View(full, RefCalls(calls, ts, j, p, regs, ctl, at))
            <==> ReadsAlike(calls, ts, i, j)
  {
    hide RefCall, RefControl, View, CallReadsAlike, ValidTables;
    if calls != [] {
      var c, ts', ctl' := calls[0], CallTables(calls[0], ts), RefControl(calls[0], p, regs, ctl);
      var a, b := RefCall(c, ts, i, p, ctl, at), RefCall(c, ts, j, p, ctl, at);
      var a', b' := RefCalls(calls[1..], ts', i, p, regs, ctl', at), RefCalls(calls[1..], ts', j, p, regs, ctl', at);
      CallReads(full, c, ts, i, j, p, ctl, at);
      ScanReads(full, calls[1..], ts', i, j, p, regs, ctl', at);
      ViewConcat(full, a, a');
      ViewConcat(full, b, b');
      SameJoin(View(full, a), View(full, b), View(full, a'), View(full, b'));
    }
  }

  lemma {:induction false} IndexedReads(full: bool, calls: seq<Call>, ts: seq<Table>, plan: LoopPlan, hi: nat,
                                        p: Params, regs: seq<int>, at: real)
    requires ValidTables(ts) && ValidCalls(calls)
    ensures |IndexedScans(full, calls, ts, plan, hi, p, regs, at)| == |RefScans(full, calls, ts, 0, hi, p, regs, at)|
    ensures IndexedScans(full, calls, ts, plan, hi, p, regs, at) == RefScans(full, calls, ts, 0, hi, p, regs, at)
            <==> forall s: nat :: s < hi ==> ReadsAlike(WithAcquire(calls), ts, ScanIndex(plan, s), s)
    decreases hi
  {
    hide RefCalls, View, ReadsAlike, ScanIndex, RegisterOf, Quantise;
    if hi > 0 {
      var k := hi - 1;
      var i, reg := ScanIndex(plan, k), RegisterOf(regs, Quantise(p.tpwrf));
      var v, w := View(full, RefScan(calls, ts, i, p, regs, at)), View(full, RefScan(calls, ts, k, p, regs, at));
      IndexedReads(full, calls, ts, plan, k, p, regs, at);
      ScanReads(full, WithAcquire(calls), ts, i, k, p, regs, Control(0, reg, ShapeOf(reg), true), at);
      ViewConcat(full, RefScan(calls, ts, i, p, regs, at), []);
      ViewConcat(full, RefScan(calls, ts, k, p, regs, at), []);
      SameJoin(IndexedScans(full, calls, ts, plan, k, p, regs, at), RefScans(full, calls, ts, 0, k, p, regs, at), v, w);
    }
  }

  // ----- tables that repeat after one cycle ----------------------------------------------------------------

  function Entry(ph: seq<int>, i: nat): int
    requires |ph| > 0
  {
    ph[i % |ph|]
  }

  /** The phases a pulse sends for those of a table. */
  function Sent(ph: seq<int>): (r: seq<int>)
    ensures |r| == |ph|
  {
    seq(|ph|, k requires 0 <= k < |ph| => RefPhase(ph[k]))
  }

  /** One cycle of m scans further on, the table is where it was. */
  predicate Repeats(ph: seq<int>, m: nat, nt: nat)
    requires |ph| > 0
  {
    forall k: nat :: k < |ph| && k + m < nt ==> Entry(ph, k + m) == ph[k]
  }

  lemma RepeatsAt(ph: seq<int>, m: nat, nt: nat, s: nat)
    requires |ph| > 0 && Repeats(ph, m, nt) && s + m < nt
    ensures Entry(ph, s + m) == Entry(ph, s)
  {
    var len := |ph|;
    var q, r := s / len, s % len;
    QuotientRemainder(s, len);
    OneDivisorLess(len, len);
    LessThanDivisor(0, len);
    SameEntry(q, r + m, len, len);
    assert r + m < nt && Entry(ph, r + m) == ph[r];
  }

  lemma {:induction false} DownToCycle(ph: seq<int>, m: nat, nt: nat, s: nat)
    requires |ph| > 0 && m >= 1 && Repeats(ph, m, nt) && s < nt
    ensures Entry(ph, s) == Entry(ph, s % m)
    decreases s
  {
    hide Entry, Repeats;
    if s >= m {
      RepeatsAt(ph, m, nt, s - m);
      DownToCycle(ph, m, nt, s - m);
      OneDivisorLess(s, m);
    } else {
      LessThanDivisor(s, m);
    }
  }

  /** The index of a scan is that scan's within one cycle, and a scan's. */
  lemma IndexInCycle(m: nat, nt: nat, s: nat)
    requires m >= 1 && s < nt && CheckLoop(m, nt).loops > 0
    ensures var i := ScanIndex(CheckLoop(m, nt), s);
            && i % m == s % m && i < nt
            && (i < m ==> i == s % m) && (i >= m ==> ScanIndex(CheckLoop(m, nt), i) == s % m)
  {
    var plan := CheckLoop(m, nt);
    OneDivisorLess(m, m);
    LessThanDivisor(0, m);
    LoopedIndex(plan, m, nt, s, m);
    QuotientRemainder(nt, m);
    assert plan.loops * m >= 2 * m;
    var i := ScanIndex(plan, s);
    if i < m { LessThanDivisor(i, m); }
  }

  /** The phases of a table are right for every scan just when it repeats after one cycle. */
  lemma CycleRight(ph: seq<int>, m: nat, nt: nat)
    requires |ph| > 0 && m >= 1 && CheckLoop(m, nt).loops > 0
    ensures (forall s: nat :: s < nt ==> Entry(ph, ScanIndex(CheckLoop(m, nt), s)) == Entry(ph, s))
            <==> Repeats(ph, m, nt)
  {
    hide Entry, CheckLoop, ScanIndex;
    var plan := CheckLoop(m, nt);
    if Repeats(ph, m, nt) {
      forall s: nat | s < nt ensures Entry(ph, ScanIndex(plan, s)) == Entry(ph, s) {
        IndexInCycle(m, nt, s);
        DownToCycle(ph, m, nt, s);
        DownToCycle(ph, m, nt, ScanIndex(plan, s));
      }
    }
    if forall s: nat :: s < nt ==> Entry(ph, ScanIndex(plan, s)) == Entry(ph, s) {
      forall k: nat | k < |ph| && k + m < nt ensures Entry(ph, k + m) == ph[k] {
        RightToCycle(ph, m, nt, k + m);
        RightToCycle(ph, m, nt, k);
        OneDivisorLess(k + m, m);
        EntryBelow(ph, k);
      }
    }
  }

  lemma EntryBelow(ph: seq<int>, k: nat)
    requires k < |ph|
    ensures Entry(ph, k) == ph[k]
  {
    LessThanDivisor(k, |ph|);
  }

  lemma RightToCycle(ph: seq<int>, m: nat, nt: nat, s: nat)
    requires |ph| > 0 && m >= 1 && s < nt && CheckLoop(m, nt).loops > 0
    requires forall j: nat :: j < nt ==> Entry(ph, ScanIndex(CheckLoop(m, nt), j)) == Entry(ph, j)
    ensures Entry(ph, s) == Entry(ph, s % m)
  {
    hide Entry, CheckLoop, ScanIndex;
    IndexInCycle(m, nt, s);
    var i := ScanIndex(CheckLoop(m, nt), s);
    assert Entry(ph, i) == Entry(ph, s);
    assert Entry(ph, ScanIndex(CheckLoop(m, nt), i)) == Entry(ph, i);
  }

  // ----- every table that a sequence reads --------------------------------------------------------------------

  predicate CallRepeats(c: Call, ts: seq<Table>, m: nat, nt: nat)
    requires ValidTables(ts) && ValidCall(c)
  {
    match c
    case Pulse(width, phase) => width <= 0.0 || Repeats(Sent(ts[phase].phase), m, nt)
    case RgPulse(width, phase, _, _) => width <= 0.0 || Repeats(Sent(ts[phase].phase), m, nt)
    case Acquire => Repeats(ts[OPH].phase, m, nt)
    case _ => true
  }

  /** Every table that a call reads, as it is then, repeats after m scans. */
  predicate CyclesRepeat(calls: seq<Call>, ts: seq<Table>, m: nat, nt: nat)
    requires ValidTables(ts) && ValidCalls(calls)
  {
    calls == [] || (CallRepeats(calls[0], ts, m, nt) && CyclesRepeat(calls[1..], CallTables(calls[0], ts), m, nt))
  }

  lemma CallAlways(c: Call, ts: seq<Table>, m: nat, nt: nat)
    requires ValidTables(ts) && ValidCall(c) && m >= 1 && CheckLoop(m, nt).loops > 0
    ensures (forall s: nat :: s < nt ==> CallReadsAlike(c, ts, ScanIndex(CheckLoop(m, nt), s), s))
            <==> CallRepeats(c, ts, m, nt)
  {
    hide CheckLoop, ScanIndex, Repeats, RefPhase;
    if c.Pulse? || c.RgPulse? {
      var ph := Sent(ts[c.phase].phase);
      CycleRight(ph, m, nt);
      assert forall s: nat :: Entry(ph, s) == RefPhase(PhaseAt(ts, c.phase, s));
    } else if c.Acquire? {
      CycleRight(ts[OPH].phase, m, nt);
      assert forall s: nat :: Entry(ts[OPH].phase, s) == PhaseAt(ts, OPH, s);
    }
  }

  lemma {:induction false} AlwaysAlike(calls: seq<Call>, ts: seq<Table>, m: nat, nt: nat)
    requires ValidTables(ts) && ValidCalls(calls) && m >= 1 && CheckLoop(m, nt).loops > 0
    ensures (forall s: nat :: s < nt ==> ReadsAlike(calls, ts, ScanIndex(CheckLoop(m, nt), s), s))
            <==> CyclesRepeat(calls, ts, m, nt)
  {
    hide CheckLoop, ScanIndex, CallReadsAlike, CallRepeats, CallTables, ValidTables;
    if calls != [] {
      var plan, ts' := CheckLoop(m, nt), CallTables(calls[0], ts);
      CallAlways(calls[0], ts, m, nt);
      AlwaysAlike(calls[1..], ts', m, nt);
      assert forall s: nat :: ReadsAlike(calls, ts, ScanIndex(plan, s), s) <==>
        CallReadsAlike(calls[0], ts, ScanIndex(plan, s), s) && ReadsAlike(calls[1..], ts', ScanIndex(plan, s), s);
    }
  }

  /** Every scan of the program reads the phases of the scan it stands for. */
  ghost predicate PhasesRight(calls: seq<Call>, p: Params)
    requires ValidCalls(calls)
  {
    forall s: nat :: s < p.nt
        ==> ReadsAlike(WithAcquire(calls), EmittedTables(calls, p), ScanIndex(Plan(calls, p), s), s)
  }

  /** They all do just when every table that is read repeats after one cycle. */
  predicate TablesRepeat(calls: seq<Call>, p: Params)
    requires ValidCalls(calls)
  {
    CyclesRepeat(WithAcquire(calls), EmittedTables(calls, p), Plan(calls, p).cycle, p.nt)
  }

  lemma PhasesRightWhen(calls: seq<Call>, p: Params)
    requires ValidCalls(calls) && Plan(calls, p).loops > 0
    ensures PhasesRight(calls, p) <==> TablesRepeat(calls, p)
  {
    hide ReadsAlike, CheckLoop, ScanIndex, CyclesRepeat;
    var ts := EmittedTables(calls, p);
    PlanIs(calls, p);
    PhaseCycleIsLeastBound(ts, 0);
    AlwaysAlike(WithAcquire(calls), ts, PhaseCycle(ts), p.nt);
  }

  lemma LoopedRefExact(full: bool, calls: seq<Call>, p: Params, regs: seq<int>, at: real)
    requires ValidCalls(calls) && Plan(calls, p).loops > 0
    ensures var looped := LoopedRef(full, calls, EmittedTables(calls, p), Plan(calls, p), p, regs, at);
            && |looped| == |NtScans(full, calls, p, regs, at)|
            && (looped == NtScans(full, calls, p, regs, at) <==> PhasesRight(calls, p))
  {
    hide LoopedRef, RefScans, IndexedScans, Plan, ReadsAlike;
    var ts, plan := EmittedTables(calls, p), Plan(calls, p);
    LoopedIsIndexed(full, calls, p, regs, at);
    IndexedReads(full, calls, ts, plan, p.nt, p, regs, at);
    SameEnd(IndexedScans(full, calls, ts, plan, p.nt, p, regs, at), RefScans(full, calls, ts, 0, p.nt, p, regs, at),
            STOP_ACTION);
  }

  lemma NtScansStripped(calls: seq<Call>, p: Params, regs: seq<int>, at: real)
    requires ValidCalls(calls)
    ensures StripAll(NtScans(true, calls, p, regs, at)) == NtScans(false, calls, p, regs, at)
  {
    hide RefScans;
    RefsStripped(calls, EmittedTables(calls, p), 0, p.nt, p, regs, at);
    StripConcat(RefScans(true, calls, EmittedTables(calls, p), 0, p.nt, p, regs, at), [STOP_ACTION]);
    assert StripAll([STOP_ACTION]) == [STOP_ACTION];
  }

  /** MAIN RESULT.  A looped program performs nt scans, power, status and phases included, if and only
      if the loop is placed well, it keeps the status and the power, and every table that the sequence
      reads repeats after one cycle. */
  lemma RunsNtScansExactly(calls: seq<Call>, p: Params, regs: seq<int>, ix: nat, e: Exps, trace: seq<Action>)
    requires ValidCalls(calls) && Plan(calls, p).loops > 0 && Performs(FidState(calls, p, regs, ix, e).board, trace)
    ensures trace == NtScans(true, calls, p, regs, e.at)
            <==> && LoopPlacedWell(calls, p, Plan(calls, p).cycle)
                 && LoopKeeps(WithAcquire(calls), p, regs, Plan(calls, p))
                 && TablesRepeat(calls, p)
    ensures StripAll(trace) == NtScans(false, calls, p, regs, e.at)
            <==> LoopPlacedWell(calls, p, Plan(calls, p).cycle) && TablesRepeat(calls, p)
  {
    hide Performs, LoopPlacedWell, FidState, LoopKeeps, LoopedRef, NtScans, Plan, StripAll, PhasesRight, TablesRepeat;
    PhasesRightWhen(calls, p);
    var trace' := LoopedFid(calls, p, regs, ix, e);
    PerformsOnce(FidState(calls, p, regs, ix, e).board, trace, trace');
    RunsLoopInFull(calls, p, regs, ix, e, trace);
    LoopedRefExact(true, calls, p, regs, e.at);
    LoopedRefExact(false, calls, p, regs, e.at);
    NtScansStripped(calls, p, regs, e.at);
  }

  /** A cycle that divides the loop's repeats. */
  lemma DividingIsRight(calls: seq<Call>, p: Params)
    requires ValidCalls(calls) && Plan(calls, p).loops > 0
    requires UsesDivide(WithAcquire(calls), EmittedTables(calls, p), Plan(calls, p).cycle)
    ensures TablesRepeat(calls, p)
  {
    hide NtScans, LoopedRef, UsesDivide, PhasesRight, TablesRepeat, Plan;
    PhasesRightWhen(calls, p);
    LoopedRefIsNtScans(true, calls, p, [], 0.0);
    LoopedRefExact(true, calls, p, [], 0.0);
  }
}
