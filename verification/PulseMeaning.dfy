/** The meaning of a pulse sequence, independent of text, buffering and loops: "just run nt scans".
    Then: the lines of a scan mean that scan, and how a scan depends on its index. */
module PulseMeaning {
  import opened Arithmetic
  import opened Phase
  import opened PulseText
  import opened Board
  import opened B12Compiler

  // ----- the reference: one scan of a sequence ------------------------------------------------

  /** A pause of so many seconds, with so many gates open. */
  function RefPause(ctl: Control, gates: int, time: real): seq<Action> {
    if time > 0.0 then [Action(0, false, ctl.phaseReset, false, 0, 0, NO_REC, gates, ctl.mps, time * 1000000000.0)]
    else []
  }

  /** The phase (int)(phase + 0.001): quarter turns, and one fewer below zero. */
  function RefPhase(phase: int): int {
    if phase >= 0 then phase else phase + 1
  }

  /** The amplifier is unblanked before the pulse and during it, and blanked while it rings down. */
  function RefPulse(ctl: Control, width: real, phase: int, rg1: real, rg2: real): seq<Action> {
    if width <= 0.0 then []
    else
      RefPause(ctl, AMP_UNBLANK, rg1)
      + [Action(RefPhase(phase), true, ctl.phaseReset, false, ctl.shape, ctl.amp, NO_REC, AMP_UNBLANK, ctl.mps,
                width * 1000000000.0)]
      + RefPause(ctl, 0, rg2)
  }

  /** The phase reset that a scan begins with lasts for the first element. */
  function RefAcquire(ctl: Control, alfa: real, rec: int, at: real): seq<Action> {
    RefPause(ctl, 0, alfa)
    + [Action(0, false, ctl.phaseReset && alfa <= 0.0, true, 0, 0, rec, RECV_UNBLANK, ctl.mps, at * 1000000.0)]
  }

  function RefCall(c: Call, ts: seq<Table>, i: nat, p: Params, ctl: Control, at: real): seq<Action>
    requires ValidTables(ts)
  {
    match c
    case Delay(time) => RefPause(ctl, 0, time)
    case Pulse(width, phase) => RefPulse(ctl, width, PhaseAt(ts, phase, i), p.rof1, p.rof2)
    case RgPulse(width, phase, rg1, rg2) => RefPulse(ctl, width, PhaseAt(ts, phase, i), rg1, rg2)
    case Acquire => RefAcquire(ctl, p.alfa, PhaseAt(ts, OPH, i), at)
    case _ => []
  }

  function RefControl(c: Call, p: Params, regs: seq<int>, ctl: Control): Control {
    match c
    case Delay(time) => if time > 0.0 then ctl.(phaseReset := false) else ctl
    case Pulse(width, _) => if width > 0.0 then ctl.(phaseReset := false) else ctl
    case RgPulse(width, _, _, _) => if width > 0.0 then ctl.(phaseReset := false) else ctl
    case Acquire => ctl.(phaseReset := false)
    case Status(state) => ctl.(mps := if StatusOn(p.xm, state) then 1 else 0)
    case RlPower(amp) =>
      var reg := RegisterOf(regs, Quantise(amp));
      ctl.(amp := reg, shape := ShapeOf(reg))
    case _ => ctl
  }

  function RefCalls(calls: seq<Call>, ts: seq<Table>, i: nat, p: Params, regs: seq<int>, ctl: Control,
                    at: real): seq<Action>
    requires ValidTables(ts) && ValidCalls(calls)
  {
    if calls == [] then []
    else RefCall(calls[0], ts, i, p, ctl, at)
         + RefCalls(calls[1..], CallTables(calls[0], ts), i, p, regs, RefControl(calls[0], p, regs, ctl), at)
  }

  /** The control state that the calls leave. */
  function RefAfter(calls: seq<Call>, p: Params, regs: seq<int>, ctl: Control): Control {
    if calls == [] then ctl else RefAfter(calls[1..], p, regs, RefControl(calls[0], p, regs, ctl))
  }

  /** The sequence with the acquisition it may have left out. */
  function WithAcquire(calls: seq<Call>): seq<Call> {
    if HasAcquire(calls) then calls else calls + [Acquire]
  }

  /** Scan i, begun with a phase reset, at the transmitter power. */
  function RefScan(calls: seq<Call>, ts: seq<Table>, i: nat, p: Params, regs: seq<int>, at: real): seq<Action>
    requires ValidTables(ts) && ValidCalls(calls)
  {
    var reg := RegisterOf(regs, Quantise(p.tpwrf));
    RefCalls(WithAcquire(calls), ts, i, p, regs, Control(0, reg, ShapeOf(reg), true), at)
  }

  // ----- leaving out what scans hand to each other --------------------------------------------

  /** Power and status carry over from one scan to the next; Strip leaves them out. */
  function Strip(a: Action): Action {
    a.(shape := 0, amp := 0, mps := 0)
  }

  function StripAll(acts: seq<Action>): (r: seq<Action>)
    ensures |r| == |acts|
  {
    seq(|acts|, k requires 0 <= k < |acts| => Strip(acts[k]))
  }

  lemma StripConcat(a: seq<Action>, b: seq<Action>)
    ensures StripAll(a + b) == StripAll(a) + StripAll(b)
  {
  }

  /** A trace as it is, or with power and status left out. */
  function View(full: bool, acts: seq<Action>): seq<Action> {
    if full then acts else StripAll(acts)
  }

  /** The scans lo .. hi-1, one after the other. */
  function RefScans(full: bool, calls: seq<Call>, ts: seq<Table>, lo: nat, hi: nat, p: Params, regs: seq<int>,
                    at: real): seq<Action>
    requires ValidTables(ts) && ValidCalls(calls) && lo <= hi
    decreases hi
  {
    if lo == hi then []
    else RefScans(full, calls, ts, lo, hi - 1, p, regs, at) + View(full, RefScan(calls, ts, hi - 1, p, regs, at))
  }

  // ----- the lines of a scan mean the scan -----------------------------------------------------

  predicate IsElement(l: Line) {
    l.PhaseReset? || l.DelayElem? || l.PulseElem? || l.AcquireElem? || l.PowerElem? || l.StatusElem? || l.OffsetElem?
  }

  predicate Elements(ls: seq<Line>) {
    forall k :: 0 <= k < |ls| ==> IsElement(ls[k])
  }

  function Acts(ls: seq<Line>, ctl: Control, at: real): seq<Action> {
    if ls == [] then [] else Emitted(ls[0], ctl, at) + Acts(ls[1..], Controlled(ls[0], ctl, at), at)
  }

  function ControlAfter(ls: seq<Line>, ctl: Control, at: real): Control {
    if ls == [] then ctl else ControlAfter(ls[1..], Controlled(ls[0], ctl, at), at)
  }

  lemma {:induction false} ActsConcat(a: seq<Line>, b: seq<Line>, ctl: Control, at: real)
    ensures Acts(a + b, ctl, at) == Acts(a, ctl, at) + Acts(b, ControlAfter(a, ctl, at), at)
    ensures ControlAfter(a + b, ctl, at) == ControlAfter(b, ControlAfter(a, ctl, at), at)
  {
    if a == [] {
      assert a + b == b;
    } else {
      assert (a + b)[1..] == a[1..] + b;
      ActsConcat(a[1..], b, Controlled(a[0], ctl, at), at);
    }
  }

  lemma ActsOne(l: Line, ctl: Control, at: real)
    ensures Acts([l], ctl, at) == Emitted(l, ctl, at) && ControlAfter([l], ctl, at) == Controlled(l, ctl, at)
  {
    assert [l][1..] == [];
  }

  lemma AcquireMeaning(ts: seq<Table>, i: nat, p: Params, regs: seq<int>, ctl: Control, at: real)
    requires ValidTables(ts)
    ensures var ls := CallLines(Acquire, ts, i, p, regs);
            && Elements(ls) && Acts(ls, ctl, at) == RefCall(Acquire, ts, i, p, ctl, at)
            && ControlAfter(ls, ctl, at) == RefControl(Acquire, p, regs, ctl)
  {
    hide PhaseAt, ValidTables, Acts, ControlAfter;
    var ls := CallLines(Acquire, ts, i, p, regs);
    ActsOne(ls[0], ctl, at);
    if |ls| == 1 {
      assert ls == [ls[0]];
    } else {
      ActsOne(ls[1], Controlled(ls[0], ctl, at), at);
      ActsConcat([ls[0]], [ls[1]], ctl, at);
      assert ls == [ls[0]] + [ls[1]];
    }
  }

  lemma CallMeaning(c: Call, ts: seq<Table>, i: nat, p: Params, regs: seq<int>, ctl: Control, at: real)
    requires ValidTables(ts) && ValidCall(c)
    ensures Elements(CallLines(c, ts, i, p, regs))
    ensures Acts(CallLines(c, ts, i, p, regs), ctl, at) == RefCall(c, ts, i, p, ctl, at)
    ensures ControlAfter(CallLines(c, ts, i, p, regs), ctl, at) == RefControl(c, p, regs, ctl)
  {
    hide PhaseAt, RegisterOf, Quantise, StatusOn, ShapeOf, ValidTables, Acts, ControlAfter;
    if c.Acquire? {
      AcquireMeaning(ts, i, p, regs, ctl, at);
    } else {
      var ls := CallLines(c, ts, i, p, regs);
      NoActs(ctl, at);
      if |ls| == 1 { ActsOne(ls[0], ctl, at); }
    }
  }

  lemma NoActs(ctl: Control, at: real)
    ensures Acts([], ctl, at) == [] && ControlAfter([], ctl, at) == ctl
  {
  }

  lemma {:induction false} LinesMeaning(calls: seq<Call>, ts: seq<Table>, i: nat, p: Params, regs: seq<int>,
                                        ctl: Control, at: real)
    requires ValidTables(ts) && ValidCalls(calls)
    ensures Elements(Lines(calls, ts, i, p, regs))
    ensures Acts(Lines(calls, ts, i, p, regs), ctl, at) == RefCalls(calls, ts, i, p, regs, ctl, at)
    ensures ControlAfter(Lines(calls, ts, i, p, regs), ctl, at) == RefAfter(calls, p, regs, ctl)
  {
    if calls != [] {
      var first := CallLines(calls[0], ts, i, p, regs);
      CallMeaning(calls[0], ts, i, p, regs, ctl, at);
      LinesMeaning(calls[1..], CallTables(calls[0], ts), i, p, regs, RefControl(calls[0], p, regs, ctl), at);
      ActsConcat(first, Lines(calls[1..], CallTables(calls[0], ts), i, p, regs), ctl, at);
    }
  }

  /** A scan's own lines are those of the sequence with its acquisition. */
  lemma AcquireAtEnd(calls: seq<Call>, ts: seq<Table>, i: nat, p: Params, regs: seq<int>)
    requires ValidTables(ts) && ValidCalls(calls)
    ensures Lines(WithAcquire(calls), ts, i, p, regs) == Lines(calls, ts, i, p, regs) + TailLines(calls, ts, i, p, regs)
  {
    hide CallTables, PhaseAt;
    if !HasAcquire(calls) {
      LinesConcat(calls, [Acquire], ts, i, p, regs);
      assert [Acquire][1..] == [];
    }
  }

  /** The control a scan's calls start from. */
  function ScanStart(lead: bool, p: Params, regs: seq<int>, ctl: Control): Control {
    var reg := RegisterOf(regs, Quantise(p.tpwrf));
    if lead then Control(ctl.mps, reg, ShapeOf(reg), true) else ctl.(phaseReset := true)
  }

  lemma IntroMeaning(lead: bool, p: Params, regs: seq<int>, ctl: Control, at: real)
    ensures var intro := [PhaseReset] + LeadLines(lead, p, regs);
            && Elements(intro) && Acts(intro, ctl, at) == []
            && ControlAfter(intro, ctl, at) == ScanStart(lead, p, regs, ctl)
  {
    ActsOne(PhaseReset, ctl, at);
    if lead {
      ActsOne(LeadLines(lead, p, regs)[0], ctl.(phaseReset := true), at);
    }
    ActsConcat([PhaseReset], LeadLines(lead, p, regs), ctl, at);
  }

  lemma ScanMeaning(calls: seq<Call>, ts: seq<Table>, i: nat, lead: bool, p: Params, regs: seq<int>, ctl: Control,
                    at: real)
    requires ValidTables(ts) && ValidCalls(calls)
    ensures Elements(ScanLines(calls, ts, i, lead, p, regs))
    ensures Acts(ScanLines(calls, ts, i, lead, p, regs), ctl, at)
            == RefCalls(WithAcquire(calls), ts, i, p, regs, ScanStart(lead, p, regs, ctl), at)
    ensures ControlAfter(ScanLines(calls, ts, i, lead, p, regs), ctl, at)
            == RefAfter(WithAcquire(calls), p, regs, ScanStart(lead, p, regs, ctl))
  {
    hide Lines, Acts, ControlAfter, RefCalls, RefAfter, TailLines, LeadLines, ScanStart;
    var own := Lines(WithAcquire(calls), ts, i, p, regs);
    var intro := [PhaseReset] + LeadLines(lead, p, regs);
    IntroMeaning(lead, p, regs, ctl, at);
    AcquireAtEnd(calls, ts, i, p, regs);
    LinesMeaning(WithAcquire(calls), ts, i, p, regs, ScanStart(lead, p, regs, ctl), at);
    ActsConcat(intro, own, ctl, at);
    assert ScanLines(calls, ts, i, lead, p, regs) == intro + own;
  }

  // ----- the stripped actions do not depend on the control handed over -------------------------

  lemma StrippedCall(c: Call, ts: seq<Table>, i: nat, p: Params, regs: seq<int>, c1: Control, c2: Control, at: real)
    requires ValidTables(ts) && c1.phaseReset == c2.phaseReset
    ensures StripAll(RefCall(c, ts, i, p, c1, at)) == StripAll(RefCall(c, ts, i, p, c2, at))
    ensures RefControl(c, p, regs, c1).phaseReset == RefControl(c, p, regs, c2).phaseReset
  {
    hide PhaseAt, RegisterOf, Quantise, StatusOn, ValidTables, RefPause, RefPulse, StripAll;
    PausesAlike(c1, c2);
    if c.Pulse? { StrippedPulse(c1, c2, c.width, PhaseAt(ts, c.phase, i), p.rof1, p.rof2); }
    if c.RgPulse? { StrippedPulse(c1, c2, c.width, PhaseAt(ts, c.phase, i), c.rg1, c.rg2); }
    if c.Acquire? { StrippedAcquire(c1, c2, p.alfa, PhaseAt(ts, OPH, i), at); }
  }

  lemma PausesAlike(c1: Control, c2: Control)
    requires c1.phaseReset == c2.phaseReset
    ensures forall gates, time :: StripAll(RefPause(c1, gates, time)) == StripAll(RefPause(c2, gates, time))
  {
  }

  lemma StrippedPulse(c1: Control, c2: Control, width: real, phase: int, rg1: real, rg2: real)
    requires c1.phaseReset == c2.phaseReset
    ensures StripAll(RefPulse(c1, width, phase, rg1, rg2)) == StripAll(RefPulse(c2, width, phase, rg1, rg2))
  {
    PausesAlike(c1, c2);
    if width > 0.0 {
      var a1, a2 := RefPause(c1, AMP_UNBLANK, rg1), RefPause(c2, AMP_UNBLANK, rg1);
      var m1, m2 := RefPulse(c1, width, phase, 0.0, 0.0), RefPulse(c2, width, phase, 0.0, 0.0);
      var b1, b2 := RefPause(c1, 0, rg2), RefPause(c2, 0, rg2);
      assert StripAll(m1) == StripAll(m2) && RefPulse(c1, width, phase, rg1, rg2) == a1 + m1 + b1;
      assert RefPulse(c2, width, phase, rg1, rg2) == a2 + m2 + b2;
      hide *;
      StripThree(a1, m1, b1);
      StripThree(a2, m2, b2);
    }
  }

  lemma StripThree(a: seq<Action>, m: seq<Action>, b: seq<Action>)
    ensures StripAll(a + m + b) == StripAll(a) + StripAll(m) + StripAll(b)
  {
  }

  lemma StrippedAcquire(c1: Control, c2: Control, alfa: real, rec: int, at: real)
    requires c1.phaseReset == c2.phaseReset
    ensures StripAll(RefAcquire(c1, alfa, rec, at)) == StripAll(RefAcquire(c2, alfa, rec, at))
  {
  }

  lemma {:induction false} StrippedScan(calls: seq<Call>, ts: seq<Table>, i: nat, p: Params, regs: seq<int>,
                                        c1: Control, c2: Control, at: real)
    requires ValidTables(ts) && ValidCalls(calls) && c1.phaseReset == c2.phaseReset
    ensures StripAll(RefCalls(calls, ts, i, p, regs, c1, at)) == StripAll(RefCalls(calls, ts, i, p, regs, c2, at))
  {
    hide RefCall, RefControl, StripAll, ValidTables;
    if calls != [] {
      var c := calls[0];
      var d1, d2 := RefControl(c, p, regs, c1), RefControl(c, p, regs, c2);
      var ts' := CallTables(c, ts);
      StrippedCall(c, ts, i, p, regs, c1, c2, at);
      StrippedScan(calls[1..], ts', i, p, regs, d1, d2, at);
      StripConcat(RefCall(c, ts, i, p, c1, at), RefCalls(calls[1..], ts', i, p, regs, d1, at));
      StripConcat(RefCall(c, ts, i, p, c2, at), RefCalls(calls[1..], ts', i, p, regs, d2, at));
    }
  }

  lemma StrippedLines(calls: seq<Call>, ts: seq<Table>, i: nat, lead: bool, p: Params, regs: seq<int>, ctl: Control,
                      at: real)
    requires ValidTables(ts) && ValidCalls(calls)
    ensures Elements(ScanLines(calls, ts, i, lead, p, regs))
    ensures StripAll(Acts(ScanLines(calls, ts, i, lead, p, regs), ctl, at))
            == StripAll(RefScan(calls, ts, i, p, regs, at))
  {
    var reg := RegisterOf(regs, Quantise(p.tpwrf));
    ScanMeaning(calls, ts, i, lead, p, regs, ctl, at);
    StrippedScan(WithAcquire(calls), ts, i, p, regs, ScanStart(lead, p, regs, ctl), Control(0, reg, ShapeOf(reg), true),
                 at);
  }

  lemma StrippedConcat(a: seq<Line>, b: seq<Line>, ctl: Control, at: real)
    requires Elements(a) && Elements(b)
    ensures Elements(a + b)
    ensures StripAll(Acts(a + b, ctl, at))
            == StripAll(Acts(a, ctl, at)) + StripAll(Acts(b, ControlAfter(a, ctl, at), at))
  {
    ActsConcat(a, b, ctl, at);
    StripConcat(Acts(a, ctl, at), Acts(b, ControlAfter(a, ctl, at), at));
  }

  /** Whatever scans come before, a scan's lines perform that scan, power and status aside. */
  lemma {:induction false} ScansMeaning(calls: seq<Call>, ts: seq<Table>, lo: nat, hi: nat, lead: bool, p: Params,
                                        regs: seq<int>, ctl: Control, at: real)
    requires ValidTables(ts) && ValidCalls(calls) && lo <= hi
    ensures Elements(Scans(calls, ts, lo, hi, lead, p, regs))
    ensures StripAll(Acts(Scans(calls, ts, lo, hi, lead, p, regs), ctl, at))
            == RefScans(false, calls, ts, lo, hi, p, regs, at)
    decreases hi
  {
    hide ScanLines, ControlAfter, RefScan, ValidCalls, Acts, StripAll;
    NoActs(ctl, at);
    if lo < hi {
      var before, scan := Scans(calls, ts, lo, hi - 1, lead, p, regs), ScanLines(calls, ts, hi - 1, lead, p, regs);
      var mid := ControlAfter(before, ctl, at);
      ScansMeaning(calls, ts, lo, hi - 1, lead, p, regs, ctl, at);
      StrippedLines(calls, ts, hi - 1, lead, p, regs, mid, at);
      StrippedConcat(before, scan, ctl, at);
    }
  }

  // ----- how a scan depends on its index --------------------------------------------------------

  /** The length of the cycle a call reads, 1 if it reads none. */
  function UsedLength(c: Call, ts: seq<Table>): (n: nat)
    requires ValidTables(ts) && ValidCall(c)
    ensures n >= 1
  {
    match c
    case Pulse(width, phase) => if width > 0.0 then |ts[phase].phase| else 1
    case RgPulse(width, phase, _, _) => if width > 0.0 then |ts[phase].phase| else 1
    case Acquire => |ts[OPH].phase|
    case _ => 1
  }

  /** Every cycle the sequence reads divides m. */
  predicate UsesDivide(calls: seq<Call>, ts: seq<Table>, m: nat)
    requires ValidTables(ts) && ValidCalls(calls)
  {
    calls == [] || (m % UsedLength(calls[0], ts) == 0 && UsesDivide(calls[1..], CallTables(calls[0], ts), m))
  }

  lemma PrefixTables(calls: seq<Call>, ts: seq<Table>, k: nat)
    requires ValidTables(ts) && ValidCalls(calls) && 0 < k <= |calls|
    ensures ValidCalls(calls[..k]) && ValidCalls(calls[1..][..k - 1])
    ensures TablesAfter(calls[..k], ts) == TablesAfter(calls[1..][..k - 1], CallTables(calls[0], ts))
  {
    assert calls[..k][1..] == calls[1..][..k - 1];
  }

  /** That is: the length of the receiver's table at every acquisition, and that of the table of every pulse that
      is performed, as the tables are by then. */
  lemma {:induction false} UsesDivideIs(calls: seq<Call>, ts: seq<Table>, m: nat)
    requires ValidTables(ts) && ValidCalls(calls)
    ensures UsesDivide(calls, ts, m) <==>
            forall k :: 0 <= k < |calls| ==>
              var c, t := calls[k], TablesAfter(calls[..k], ts);
              && (c.Acquire? ==> m % |t[24].phase| == 0)
              && ((c.Pulse? || c.RgPulse?) && c.width > 0.0 ==> m % |t[c.phase].phase| == 0)
  {
    if calls != [] {
      var ts', rest := CallTables(calls[0], ts), calls[1..];
      UsesDivideIs(rest, ts', m);
      hide CallTables, ValidTables;
      assert calls[..0] == [] && TablesAfter([], ts) == ts;
      forall k | 0 <= k < |rest|
        ensures rest[k] == calls[k + 1] && TablesAfter(rest[..k], ts') == TablesAfter(calls[..k + 1], ts)
      {
        PrefixTables(calls, ts, k + 1);
      }
      hide TablesAfter;
      forall k | 0 < k < |calls| ensures calls[k] == rest[k - 1] {
      }
    }
  }

  lemma {:induction false} UsesDivideProduct(calls: seq<Call>, ts: seq<Table>, k: nat, m: nat)
    requires ValidTables(ts) && ValidCalls(calls) && UsesDivide(calls, ts, m)
    ensures UsesDivide(calls, ts, k * m)
  {
    if calls != [] {
      ModProduct(k, m, UsedLength(calls[0], ts));
      UsesDivideProduct(calls[1..], CallTables(calls[0], ts), k, m);
    }
  }

  /** Indices that differ by a common multiple of the cycles give the same scan. */
  lemma {:induction false} SameScan(calls: seq<Call>, ts: seq<Table>, i: nat, shift: nat, p: Params, regs: seq<int>,
                                    ctl: Control, at: real)
    requires ValidTables(ts) && ValidCalls(calls) && UsesDivide(calls, ts, shift)
    ensures RefCalls(calls, ts, i + shift, p, regs, ctl, at) == RefCalls(calls, ts, i, p, regs, ctl, at)
  {
    if calls != [] {
      ModSum(i, shift, UsedLength(calls[0], ts));
      SameScan(calls[1..], CallTables(calls[0], ts), i, shift, p, regs, RefControl(calls[0], p, regs, ctl), at);
    }
  }

  lemma {:induction false} SameScans(full: bool, calls: seq<Call>, ts: seq<Table>, lo: nat, hi: nat, shift: nat,
                                     p: Params, regs: seq<int>, at: real)
    requires ValidTables(ts) && ValidCalls(calls) && UsesDivide(WithAcquire(calls), ts, shift) && lo <= hi
    ensures RefScans(full, calls, ts, lo + shift, hi + shift, p, regs, at)
            == RefScans(full, calls, ts, lo, hi, p, regs, at)
    decreases hi
  {
    hide RefCalls, UsesDivide, RegisterOf, Quantise, View;
    if lo < hi {
      SameScans(full, calls, ts, lo, hi - 1, shift, p, regs, at);
      var reg := RegisterOf(regs, Quantise(p.tpwrf));
      SameScan(WithAcquire(calls), ts, hi - 1, shift, p, regs, Control(0, reg, ShapeOf(reg), true), at);
      assert hi + shift - 1 == hi - 1 + shift;
    }
  }

  lemma {:induction false} RefScansSplit(full: bool, calls: seq<Call>, ts: seq<Table>, lo: nat, mid: nat, hi: nat,
                                         p: Params, regs: seq<int>, at: real)
    requires ValidTables(ts) && ValidCalls(calls) && lo <= mid <= hi
    ensures RefScans(full, calls, ts, lo, hi, p, regs, at)
            == RefScans(full, calls, ts, lo, mid, p, regs, at) + RefScans(full, calls, ts, mid, hi, p, regs, at)
    decreases hi
  {
    hide RefScan, View;
    if mid < hi {
      RefScansSplit(full, calls, ts, lo, mid, hi - 1, p, regs, at);
    }
  }

  /** One more cycle in front shifts the scans. */
  lemma OneMoreCycle(full: bool, calls: seq<Call>, ts: seq<Table>, m: nat, hi: nat, p: Params, regs: seq<int>, at: real)
    requires ValidTables(ts) && ValidCalls(calls) && UsesDivide(WithAcquire(calls), ts, m)
    ensures RefScans(full, calls, ts, 0, m, p, regs, at) + RefScans(full, calls, ts, 0, hi, p, regs, at)
            == RefScans(full, calls, ts, 0, m + hi, p, regs, at)
  {
    hide RefScans, UsesDivide, WithAcquire;
    SameScans(full, calls, ts, 0, hi, m, p, regs, at);
    RefScansSplit(full, calls, ts, 0, m, m + hi, p, regs, at);
    assert 0 + m == m && hi + m == m + hi;
  }

  /** n cycles of m scans are n*m scans when every cycle divides m. */
  lemma {:induction false} RepeatedScans(full: bool, calls: seq<Call>, ts: seq<Table>, n: nat, m: nat, p: Params,
                                         regs: seq<int>, at: real)
    requires ValidTables(ts) && ValidCalls(calls) && UsesDivide(WithAcquire(calls), ts, m)
    ensures Repeat(RefScans(full, calls, ts, 0, m, p, regs, at), n) == RefScans(full, calls, ts, 0, n * m, p, regs, at)
  {
    hide UsesDivide, WithAcquire, RefScan;
    if n > 0 {
      RepeatedScans(full, calls, ts, n - 1, m, p, regs, at);
      OneMoreCycle(full, calls, ts, m, (n - 1) * m, p, regs, at);
      MulStep(n, m);
    }
  }

  /** The looped cycle and the remainder are nt scans when every cycle divides the loop's. */
  lemma LoopedIsPlain(full: bool, calls: seq<Call>, ts: seq<Table>, n: nat, m: nat, rem: nat, p: Params, regs: seq<int>,
                      at: real)
    requires ValidTables(ts) && ValidCalls(calls) && UsesDivide(WithAcquire(calls), ts, m) && n >= 1
    ensures Repeat(RefScans(full, calls, ts, 0, m, p, regs, at), n) + RefScans(full, calls, ts, m, m + rem, p, regs, at)
            == RefScans(full, calls, ts, 0, n * m + rem, p, regs, at)
  {
    hide RefScans, UsesDivide;
    RepeatedScans(full, calls, ts, n, m, p, regs, at);
    UsesDivideProduct(WithAcquire(calls), ts, n - 1, m);
    MulStep(n, m);
    ShiftedRemainder(full, calls, ts, m, (n - 1) * m, rem, p, regs, at);
  }

  lemma ShiftedRemainder(full: bool, calls: seq<Call>, ts: seq<Table>, m: nat, shift: nat, rem: nat, p: Params,
                         regs: seq<int>, at: real)
    requires ValidTables(ts) && ValidCalls(calls) && UsesDivide(WithAcquire(calls), ts, shift)
    ensures RefScans(full, calls, ts, 0, m + shift, p, regs, at) + RefScans(full, calls, ts, m, m + rem, p, regs, at)
            == RefScans(full, calls, ts, 0, m + shift + rem, p, regs, at)
  {
    hide RefScans, UsesDivide, WithAcquire;
    SameScans(full, calls, ts, m, m + rem, shift, p, regs, at);
    RefScansSplit(full, calls, ts, 0, m + shift, m + shift + rem, p, regs, at);
    assert m + rem + shift == m + shift + rem;
  }

  /** Stripping commutes with repeating. */
  lemma {:induction false} StripRepeat(s: seq<Action>, n: nat)
    ensures StripAll(Repeat(s, n)) == Repeat(StripAll(s), n)
  {
    if n > 0 {
      StripRepeat(s, n - 1);
      StripConcat(s, Repeat(s, n - 1));
    }
  }
}
