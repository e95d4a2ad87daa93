/** What the nt scans that the board is meant to perform look like, call by call: the instruction that
    each call puts into the trace, and the phase, power and status it has there. */
module PulseShows {
  import opened Common
  import opened Phase
  import opened PulseText
  import opened Board
  import opened B12Compiler
  import opened PulseMeaning
  import opened PulseTheorems

  // ----- where a call's instructions stand --------------------------------------------------------------

  lemma {:induction false} CallsConcat(a: seq<Call>, b: seq<Call>, ts: seq<Table>, i: nat, p: Params, regs: seq<int>,
                                       ctl: Control, at: real)
    requires ValidTables(ts) && ValidCalls(a) && ValidCalls(b) && ValidCalls(a + b)
    ensures RefCalls(a + b, ts, i, p, regs, ctl, at)
            == RefCalls(a, ts, i, p, regs, ctl, at)
               + RefCalls(b, TablesAfter(a, ts), i, p, regs, RefAfter(a, p, regs, ctl), at)
    ensures RefAfter(a + b, p, regs, ctl) == RefAfter(b, p, regs, RefAfter(a, p, regs, ctl))
  {
    hide RefCall, RefControl, CallTables, ValidTables;
    if a == [] {
      assert a + b == b;
    } else {
      assert (a + b)[1..] == a[1..] + b;
      CallsConcat(a[1..], b, CallTables(a[0], ts), i, p, regs, RefControl(a[0], p, regs, ctl), at);
    }
  }

  /** The control with which every scan is meant to begin: status 0, the transmitter power, a phase reset. */
  function ScanControl(p: Params, regs: seq<int>): Control {
    var reg := RegisterOf(regs, Quantise(p.tpwrf));
    Control(0, reg, ShapeOf(reg), true)
  }

  /** Where the call after `a` begins in scan s. */
  function Position(calls: seq<Call>, a: seq<Call>, s: nat, p: Params, regs: seq<int>, at: real): nat
    requires ValidCalls(calls) && ValidCalls(a)
  {
    var ts := EmittedTables(calls, p);
    |RefScans(true, calls, ts, 0, s, p, regs, at)| + |RefCalls(a, ts, s, p, regs, ScanControl(p, regs), at)|
  }

  lemma PositionIs(calls: seq<Call>, a: seq<Call>, s: nat, p: Params, regs: seq<int>, at: real)
    requires ValidCalls(calls) && ValidCalls(a)
    ensures ValidTables(EmittedTables(calls, p))
    ensures Position(calls, a, s, p, regs, at)
            == |RefScans(true, calls, EmittedTables(calls, p), 0, s, p, regs, at)|
               + |RefCalls(a, EmittedTables(calls, p), s, p, regs, ScanControl(p, regs), at)|
  {
    hide RefScans, RefCalls, ScanControl, DryTables;
  }

  /** The scans before scan s, that scan, and the others. */
  lemma ScansAround(calls: seq<Call>, s: nat, p: Params, regs: seq<int>, at: real) returns (after: seq<Action>)
    requires ValidCalls(calls) && s < p.nt
    ensures ValidTables(EmittedTables(calls, p))
    ensures var ts := EmittedTables(calls, p);
            NtScans(true, calls, p, regs, at)
            == RefScans(true, calls, ts, 0, s, p, regs, at) + RefScan(calls, ts, s, p, regs, at) + after
  {
    hide RefScan, ValidCalls, DryTables;
    var ts := EmittedTables(calls, p);
    RefScansSplit(true, calls, ts, 0, s + 1, p.nt, p, regs, at);
    assert RefScans(true, calls, ts, 0, s + 1, p, regs, at)
           == RefScans(true, calls, ts, 0, s, p, regs, at) + RefScan(calls, ts, s, p, regs, at);
    after := RefScans(true, calls, ts, s + 1, p.nt, p, regs, at) + [STOP_ACTION];
  }

  lemma OneCall(c: Call, ts: seq<Table>, i: nat, p: Params, regs: seq<int>, ctl: Control, at: real)
    requires ValidTables(ts) && ValidCalls([c])
    ensures RefCalls([c], ts, i, p, regs, ctl, at) == RefCall(c, ts, i, p, ctl, at)
    ensures TablesAfter([c], ts) == CallTables(c, ts)
  {
    hide RefCall;
    assert [c][1..] == [];
  }

  lemma SliceOf(trace: seq<Action>, before: seq<Action>, x: seq<Action>, y: seq<Action>, z: seq<Action>,
                rest: seq<Action>)
    requires trace == before + (x + y + z) + rest
    ensures |before| + |x| + |y| <= |trace| && trace[|before| + |x|..|before| + |x| + |y|] == y
  {
    assert trace == (before + x) + y + (z + rest);
    SliceMiddle(before + x, y, z + rest);
  }

  lemma SliceMiddle(x: seq<Action>, y: seq<Action>, z: seq<Action>)
    ensures |x| + |y| <= |x + y + z| && (x + y + z)[|x|..|x| + |y|] == y
  {
  }

  lemma ValidParts(calls: seq<Call>, a: seq<Call>, c: Call, b: seq<Call>)
    requires ValidCalls(calls) && WithAcquire(calls) == a + [c] + b
    ensures ValidCalls(a) && ValidCalls(b) && ValidCalls([c]) && ValidCall(c) && ValidCalls(a + [c])
  {
    var own := WithAcquire(calls);
    assert forall k :: 0 <= k < |a| ==> a[k] == own[k];
    assert forall k :: 0 <= k < |b| ==> b[k] == own[|a| + 1 + k];
    assert c == own[|a|];
  }

  /** A scan is what comes before a call, the call, and what comes after. */
  lemma ScanParts(calls: seq<Call>, a: seq<Call>, c: Call, b: seq<Call>, s: nat, p: Params, regs: seq<int>, at: real)
      returns (after: seq<Action>)
    requires ValidCalls(calls) && WithAcquire(calls) == a + [c] + b
    ensures ValidCalls(a) && ValidCall(c)
    ensures var e, start := EmittedTables(calls, p), ScanControl(p, regs);
            RefScan(calls, e, s, p, regs, at)
            == RefCalls(a, e, s, p, regs, start, at)
               + RefCall(c, TablesAfter(a, e), s, p, RefAfter(a, p, regs, start), at) + after
  {
    ValidParts(calls, a, c, b);
    hide RefCall, ValidCalls, RefCalls, RefAfter, DryTables, TablesAfter, RegisterOf, Quantise;
    var e, start := EmittedTables(calls, p), ScanControl(p, regs);
    CallsConcat(a + [c], b, e, s, p, regs, start, at);
    CallsConcat(a, [c], e, s, p, regs, start, at);
    OneCall(c, TablesAfter(a, e), s, p, regs, RefAfter(a, p, regs, start), at);
    after := RefCalls(b, TablesAfter(a + [c], e), s, p, regs, RefAfter(a + [c], p, regs, start), at);
  }

  lemma CallWithin(calls: seq<Call>, a: seq<Call>, c: Call, b: seq<Call>, s: nat, p: Params, regs: seq<int>, at: real)
    requires ValidCalls(calls) && WithAcquire(calls) == a + [c] + b && s < p.nt
    ensures ValidCalls(a) && ValidCall(c)
    ensures var ts, ctl := TablesAfter(a, EmittedTables(calls, p)), RefAfter(a, p, regs, ScanControl(p, regs));
            var j, trace := Position(calls, a, s, p, regs, at), NtScans(true, calls, p, regs, at);
            var own := RefCall(c, ts, s, p, ctl, at);
            j + |own| <= |trace| && trace[j..j + |own|] == own
  {
    hide *;
    var after := ScanParts(calls, a, c, b, s, p, regs, at);
    var rest := ScansAround(calls, s, p, regs, at);
    PositionIs(calls, a, s, p, regs, at);
    var e, start := EmittedTables(calls, p), ScanControl(p, regs);
    var own := RefCall(c, TablesAfter(a, e), s, p, RefAfter(a, p, regs, start), at);
    var before, first := RefScans(true, calls, e, 0, s, p, regs, at), RefCalls(a, e, s, p, regs, start, at);
    SliceOf(NtScans(true, calls, p, regs, at), before, first, own, after, rest);
  }

  // ----- what they are ----------------------------------------------------------------------------------

  lemma SliceAt(trace: seq<Action>, j: nat, own: seq<Action>, m: nat)
    requires j + |own| <= |trace| && trace[j..j + |own|] == own && m < |own|
    ensures j + m < |trace| && trace[j + m] == own[m]
  {
    assert trace[j..j + |own|][m] == trace[j + m];
  }

  /** In scan s a delay is one quiet instruction. */
  lemma DelayShows(calls: seq<Call>, a: seq<Call>, c: Call, b: seq<Call>, s: nat, p: Params, regs: seq<int>, at: real)
    requires ValidCalls(calls) && WithAcquire(calls) == a + [c] + b && s < p.nt && c.Delay? && c.time > 0.0
    ensures ValidCalls(a)
    ensures var ctl, j := RefAfter(a, p, regs, ScanControl(p, regs)), Position(calls, a, s, p, regs, at);
            var trace := NtScans(true, calls, p, regs, at);
            && j < |trace|
            && trace[j] == Action(0, false, ctl.phaseReset, false, 0, 0, -1, 0, ctl.mps, c.time * 1000000000.0)
  {
    CallWithin(calls, a, c, b, s, p, regs, at);
    hide NtScans, Position, RefAfter, ScanControl, TablesAfter, DryTables, WithAcquire;
    var ts, ctl := TablesAfter(a, EmittedTables(calls, p)), RefAfter(a, p, regs, ScanControl(p, regs));
    SliceAt(NtScans(true, calls, p, regs, at), Position(calls, a, s, p, regs, at), RefCall(c, ts, s, p, ctl, at), 0);
  }

  lemma AcquireParts(ts: seq<Table>, s: nat, p: Params, ctl: Control, at: real)
    requires ValidTables(ts)
    ensures var own, rec, k := RefCall(Acquire, ts, s, p, ctl, at), ts[24].phase, if p.alfa > 0.0 then 1 else 0;
            && |own| == k + 1
            && (p.alfa > 0.0 ==>
                  own[0] == Action(0, false, ctl.phaseReset, false, 0, 0, -1, 0, ctl.mps, p.alfa * 1000000000.0))
            && own[k] == Action(0, false, ctl.phaseReset && p.alfa <= 0.0, true, 0, 0, rec[s % |rec|], 2, ctl.mps,
                                at * 1000000.0)
  {
  }

  /** An acquisition triggers the receiver, with the phase that is s entries on in its table. */
  lemma AcquireShows(calls: seq<Call>, a: seq<Call>, b: seq<Call>, s: nat, p: Params, regs: seq<int>, at: real)
    requires ValidCalls(calls) && WithAcquire(calls) == a + [Acquire] + b && s < p.nt
    ensures ValidCalls(a)
    ensures var ctl, j := RefAfter(a, p, regs, ScanControl(p, regs)), Position(calls, a, s, p, regs, at);
            var trace, rec := NtScans(true, calls, p, regs, at), TablesAfter(a, EmittedTables(calls, p))[24].phase;
            var k := j + if p.alfa > 0.0 then 1 else 0;
            && k < |trace|
            && (p.alfa > 0.0 ==>
                  trace[j] == Action(0, false, ctl.phaseReset, false, 0, 0, -1, 0, ctl.mps, p.alfa * 1000000000.0))
            && trace[k] == Action(0, false, ctl.phaseReset && p.alfa <= 0.0, true, 0, 0, rec[s % |rec|], 2, ctl.mps,
                                  at * 1000000.0)
  {
    CallWithin(calls, a, Acquire, b, s, p, regs, at);
    hide NtScans, Position, RefAfter, RefCall, ScanControl, TablesAfter, DryTables, WithAcquire;
    var ts, ctl := TablesAfter(a, EmittedTables(calls, p)), RefAfter(a, p, regs, ScanControl(p, regs));
    var own, j := RefCall(Acquire, ts, s, p, ctl, at), Position(calls, a, s, p, regs, at);
    AcquireParts(ts, s, p, ctl, at);
    SliceAt(NtScans(true, calls, p, regs, at), j, own, 0);
    if |own| > 1 { SliceAt(NtScans(true, calls, p, regs, at), j, own, 1); }
  }

  /** The width, the delays around it, and the table of a pulse. */
  lemma PulseParts(c: Call, ts: seq<Table>, s: nat, p: Params, ctl: Control, at: real)
    requires ValidTables(ts) && ValidCall(c) && (c.Pulse? || c.RgPulse?) && c.width > 0.0
    ensures var rg1, rg2 := if c.Pulse? then p.rof1 else c.rg1, if c.Pulse? then p.rof2 else c.rg2;
            var phase, own := ts[c.phase].phase[s % |ts[c.phase].phase|], RefCall(c, ts, s, p, ctl, at);
            var k := if rg1 > 0.0 then 1 else 0;
            && |own| == k + 1 + (if rg2 > 0.0 then 1 else 0)
            && (rg1 > 0.0 ==>
                  own[0] == Action(0, false, ctl.phaseReset, false, 0, 0, -1, 4, ctl.mps, rg1 * 1000000000.0))
            && own[k] == Action(if phase >= 0 then phase else phase + 1, true, ctl.phaseReset, false, ctl.shape,
                                ctl.amp, -1, 4, ctl.mps, c.width * 1000000000.0)
            && (rg2 > 0.0 ==>
                  own[k + 1] == Action(0, false, ctl.phaseReset, false, 0, 0, -1, 0, ctl.mps, rg2 * 1000000000.0))
  {
  }

  /** A pulse is unblanked and, for a phase of so many quarter turns, transmitted at that phase: the one that
      is s entries on in its table. */
  lemma PulseShows(calls: seq<Call>, a: seq<Call>, c: Call, b: seq<Call>, s: nat, p: Params, regs: seq<int>, at: real)
    requires ValidCalls(calls) && WithAcquire(calls) == a + [c] + b && s < p.nt
    requires (c.Pulse? || c.RgPulse?) && c.width > 0.0
    ensures ValidCalls(a) && ValidCall(c)
    ensures var ctl, j := RefAfter(a, p, regs, ScanControl(p, regs)), Position(calls, a, s, p, regs, at);
            var trace, ts := NtScans(true, calls, p, regs, at), TablesAfter(a, EmittedTables(calls, p));
            var rg1, rg2 := if c.Pulse? then p.rof1 else c.rg1, if c.Pulse? then p.rof2 else c.rg2;
            var phase, k := ts[c.phase].phase[s % |ts[c.phase].phase|], j + if rg1 > 0.0 then 1 else 0;
            && k + (if rg2 > 0.0 then 1 else 0) < |trace|
            && (rg1 > 0.0 ==>
                  trace[j] == Action(0, false, ctl.phaseReset, false, 0, 0, -1, 4, ctl.mps, rg1 * 1000000000.0))
            && trace[k] == Action(if phase >= 0 then phase else phase + 1, true, ctl.phaseReset, false, ctl.shape,
                                  ctl.amp, -1, 4, ctl.mps, c.width * 1000000000.0)
            && (rg2 > 0.0 ==>
                  trace[k + 1] == Action(0, false, ctl.phaseReset, false, 0, 0, -1, 0, ctl.mps, rg2 * 1000000000.0))
  {
    CallWithin(calls, a, c, b, s, p, regs, at);
    hide NtScans, Position, RefAfter, RefCall, ScanControl, TablesAfter, DryTables, WithAcquire;
    var ts, ctl := TablesAfter(a, EmittedTables(calls, p)), RefAfter(a, p, regs, ScanControl(p, regs));
    var own, j := RefCall(c, ts, s, p, ctl, at), Position(calls, a, s, p, regs, at);
    PulseParts(c, ts, s, p, ctl, at);
    SliceAt(NtScans(true, calls, p, regs, at), j, own, 0);
    if |own| > 1 { SliceAt(NtScans(true, calls, p, regs, at), j, own, 1); }
    if |own| > 2 { SliceAt(NtScans(true, calls, p, regs, at), j, own, 2); }
  }

  // ----- the power and the status there -------------------------------------------------------------------

  lemma {:induction false} LastCall(a: seq<Call>, p: Params, regs: seq<int>, ctl: Control)
    requires a != []
    ensures RefAfter(a, p, regs, ctl) == RefControl(a[|a| - 1], p, regs, RefAfter(a[..|a| - 1], p, regs, ctl))
  {
    hide RefControl;
    if |a| > 1 {
      LastCall(a[1..], p, regs, RefControl(a[0], p, regs, ctl));
      assert a[1..][..|a| - 2] == a[..|a| - 1][1..];
    } else {
      assert a[1..] == [] && a[..0] == [];
    }
  }

  /** The status is that of the last status call, by its letter in xm ... */
  lemma {:induction false} StatusShows(a: seq<Call>, k: nat, p: Params, regs: seq<int>)
    requires k < |a| && a[k].Status? && forall m :: k < m < |a| ==> !a[m].Status?
    ensures RefAfter(a, p, regs, ScanControl(p, regs)).mps ==
            if (a[k].state < |p.xm| && p.xm[a[k].state] == 'y')
               || (a[k].state > |p.xm| > 0 && p.xm[|p.xm| - 1] == 'y') then 1 else 0
  {
    LastCall(a, p, regs, ScanControl(p, regs));
    if k < |a| - 1 {
      hide StatusOn;
      StatusShows(a[..|a| - 1], k, p, regs);
    }
  }

  /** ... and 0 before the first of the scan. */
  lemma {:induction false} NoStatusShows(a: seq<Call>, p: Params, regs: seq<int>)
    requires forall k :: 0 <= k < |a| ==> !a[k].Status?
    ensures RefAfter(a, p, regs, ScanControl(p, regs)).mps == 0
  {
    if a != [] {
      LastCall(a, p, regs, ScanControl(p, regs));
      NoStatusShows(a[..|a| - 1], p, regs);
    }
  }

  /** The power is that of the register with the amplitude of the last power call ... */
  lemma {:induction false} PowerShows(a: seq<Call>, k: nat, p: Params, regs: seq<int>)
    requires k < |a| && a[k].RlPower? && forall m :: k < m < |a| ==> !a[m].RlPower?
    ensures var ctl, val := RefAfter(a, p, regs, ScanControl(p, regs)), Quantise(a[k].amp);
            && ctl.shape == (if ctl.amp > 0 then 1 else 0)
            && if val in regs then ctl.amp < |regs| && regs[ctl.amp] == val else ctl.amp == 0
  {
    hide RegisterOf, Quantise, ScanControl, StatusOn;
    LastCall(a, p, regs, ScanControl(p, regs));
    if k < |a| - 1 {
      PowerShows(a[..|a| - 1], k, p, regs);
    } else {
      RegisterFound(regs, Quantise(a[k].amp));
    }
  }

  /** ... and with the transmitter power before the first of the scan. */
  lemma {:induction false} NoPowerShows(a: seq<Call>, p: Params, regs: seq<int>)
    requires forall k :: 0 <= k < |a| ==> !a[k].RlPower?
    ensures var ctl, val := RefAfter(a, p, regs, ScanControl(p, regs)), Quantise(p.tpwrf);
            && ctl.shape == (if ctl.amp > 0 then 1 else 0)
            && if val in regs then ctl.amp < |regs| && regs[ctl.amp] == val else ctl.amp == 0
  {
    hide RegisterOf, Quantise, StatusOn;
    if a == [] {
      RegisterFound(regs, Quantise(p.tpwrf));
    } else {
      LastCall(a, p, regs, ScanControl(p, regs));
      NoPowerShows(a[..|a| - 1], p, regs);
    }
  }

  predicate Emits(c: Call) {
    c.Acquire? || (c.Delay? && c.time > 0.0) || ((c.Pulse? || c.RgPulse?) && c.width > 0.0)
  }

  /** The phase reset of a scan lasts for its first element. */
  lemma {:induction false} ResetShows(a: seq<Call>, p: Params, regs: seq<int>)
    ensures RefAfter(a, p, regs, ScanControl(p, regs)).phaseReset <==> forall k :: 0 <= k < |a| ==> !Emits(a[k])
  {
    if a != [] {
      var k := |a| - 1;
      LastCall(a, p, regs, ScanControl(p, regs));
      ResetShows(a[..k], p, regs);
      assert forall i :: 0 <= i < k ==> a[..k][i] == a[i];
      hide RegisterOf, Quantise, ScanControl, StatusOn;
    }
  }

  // ----- the phases in a table ------------------------------------------------------------------------------

  predicate Sets(c: Call, t: nat) {
    c.Settable? && c.tab == t
  }

  lemma {:induction false} LastSetIs(calls: seq<Call>, t: nat, k: nat)
    requires k < |calls| && Sets(calls[k], t) && forall m :: k < m < |calls| ==> !Sets(calls[m], t)
    ensures LastSet(calls, t) == Some(calls[k].vals)
  {
    if k > 0 { LastSetIs(calls[1..], t, k - 1); } else { NoneSet(calls[1..], t); }
  }

  lemma {:induction false} NoneSet(calls: seq<Call>, t: nat)
    requires forall m :: 0 <= m < |calls| ==> !Sets(calls[m], t)
    ensures LastSet(calls, t) == None
  {
    if calls != [] { NoneSet(calls[1..], t); }
  }

  lemma InitiallyHolds(t: nat, cpflag: bool)
    requires t <= 24
    ensures ValidTables(InitialTables(cpflag))
    ensures InitialTables(cpflag)[t].phase ==
            if t == 24 then (if cpflag then [0] else [0, 1, 2, 3]) else if 1 <= t <= 3 then [t] else [0]
  {
  }

  /** A table holds what the scan has last put into it ... */
  lemma TableShows(calls: seq<Call>, a: seq<Call>, t: nat, k: nat, p: Params)
    requires ValidCalls(calls) && ValidCalls(a) && t <= 24
    requires k < |a| && Sets(a[k], t) && forall m :: k < m < |a| ==> !Sets(a[m], t)
    ensures TablesAfter(a, EmittedTables(calls, p))[t].phase == a[k].vals
  {
    LastSetIs(a, t, k);
    TablesAfterAt(a, EmittedTables(calls, p), t);
  }

  /** ... else what the sequence leaves in it ... */
  lemma TableLeft(calls: seq<Call>, a: seq<Call>, t: nat, k: nat, p: Params)
    requires ValidCalls(calls) && ValidCalls(a) && t <= 24 && forall m :: 0 <= m < |a| ==> !Sets(a[m], t)
    requires k < |calls| && Sets(calls[k], t) && forall m :: k < m < |calls| ==> !Sets(calls[m], t)
    ensures TablesAfter(a, EmittedTables(calls, p))[t].phase == calls[k].vals
  {
    hide TablesAfter, DryTables, LastSet;
    InitiallyHolds(t, p.cpflag);
    NoneSet(a, t);
    LastSetIs(calls, t, k);
    hide InitialTables;
    TablesAfterAt(a, EmittedTables(calls, p), t);
    DryTablesAt(calls, InitialTables(p.cpflag), t);
  }

  /** ... else what it held to begin with. */
  lemma TableUnset(calls: seq<Call>, a: seq<Call>, t: nat, p: Params)
    requires ValidCalls(calls) && ValidCalls(a) && t <= 24
    requires forall m :: 0 <= m < |a| ==> !Sets(a[m], t)
    requires forall m :: 0 <= m < |calls| ==> !Sets(calls[m], t)
    ensures TablesAfter(a, EmittedTables(calls, p))[t].phase ==
            if t == 24 then (if p.cpflag then [0] else [0, 1, 2, 3]) else if 1 <= t <= 3 then [t] else [0]
  {
    hide TablesAfter, DryTables, LastSet;
    InitiallyHolds(t, p.cpflag);
    NoneSet(a, t);
    NoneSet(calls, t);
    hide InitialTables;
    TablesAfterAt(a, EmittedTables(calls, p), t);
    DryTablesAt(calls, InitialTables(p.cpflag), t);
  }
}
