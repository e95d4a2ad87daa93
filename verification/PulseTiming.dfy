/** The generator's own total of an experiment's length, and the time of a board's trace. */
module PulseTiming {
  import opened Phase
  import opened PulseText
  import opened Board
  import opened B12Compiler
  import opened PulseMeaning
  import opened PulseCorrectness
  import opened PulseTheorems

  function Times(n: nat, t: real): real {
    n as real * t
  }

  // ----- the generator's total ------------------------------------------------------------------------

  function CallSeconds(c: Call, p: Params): real {
    match c
    case Delay(time) => if time > 0.0 then time else 0.0
    case Pulse(width, _) => if width > 0.0 then width + p.rof1 + p.rof2 else 0.0
    case RgPulse(width, _, rg1, rg2) => if width > 0.0 then width + rg1 + rg2 else 0.0
    case Acquire => if p.alfa > 0.0 then p.alfa else 0.0
    case _ => 0.0
  }

  /** The time of one scan's elements, acquisition itself not counted. */
  function SequenceSeconds(calls: seq<Call>, p: Params): real {
    if calls == [] then 0.0 else CallSeconds(calls[0], p) + SequenceSeconds(calls[1..], p)
  }

  lemma CallLinesTime(c: Call, ts: seq<Table>, i: nat, p: Params, regs: seq<int>)
    requires ValidTables(ts)
    ensures LinesTime(CallLines(c, ts, i, p, regs)) == CallSeconds(c, p)
  {
    hide PhaseAt, RegisterOf, Quantise;
    var ls := CallLines(c, ts, i, p, regs);
    if |ls| == 2 {
      assert ls == [ls[0]] + [ls[1]];
      LinesTimeConcat([ls[0]], [ls[1]]);
    }
  }

  lemma {:induction false} SequenceTime(calls: seq<Call>, ts: seq<Table>, i: nat, p: Params, regs: seq<int>)
    requires ValidTables(ts) && ValidCalls(calls)
    ensures LinesTime(Lines(calls, ts, i, p, regs)) == SequenceSeconds(calls, p)
  {
    hide CallLines, CallSeconds;
    if calls != [] {
      CallLinesTime(calls[0], ts, i, p, regs);
      SequenceTime(calls[1..], CallTables(calls[0], ts), i, p, regs);
      LinesTimeConcat(CallLines(calls[0], ts, i, p, regs), Lines(calls[1..], CallTables(calls[0], ts), i, p, regs));
    }
  }

  lemma ScanSeconds(calls: seq<Call>, ts: seq<Table>, i: nat, lead: bool, p: Params, regs: seq<int>)
    requires ValidTables(ts) && ValidCalls(calls)
    ensures LinesTime(ScanLines(calls, ts, i, lead, p, regs)) == SequenceSeconds(WithAcquire(calls), p)
  {
    hide Lines, TailLines, ScanLines, SequenceSeconds, LinesTime;
    ScanTime(calls, ts, i, lead, p, regs);
    AcquireAtEnd(calls, ts, i, p, regs);
    LinesTimeConcat(Lines(calls, ts, i, p, regs), TailLines(calls, ts, i, p, regs));
    SequenceTime(WithAcquire(calls), ts, i, p, regs);
  }

  lemma {:induction false} ScansSeconds(calls: seq<Call>, ts: seq<Table>, lo: nat, hi: nat, lead: bool, p: Params,
                                        regs: seq<int>)
    requires ValidTables(ts) && ValidCalls(calls) && lo <= hi
    ensures LinesTime(Scans(calls, ts, lo, hi, lead, p, regs)) == Times(hi - lo, SequenceSeconds(WithAcquire(calls), p))
    decreases hi
  {
    hide ScanLines, SequenceSeconds, Times;
    var t := SequenceSeconds(WithAcquire(calls), p);
    RealStep(hi - lo, t);
    if lo < hi {
      ScansSeconds(calls, ts, lo, hi - 1, lead, p, regs);
      ScanSeconds(calls, ts, hi - 1, lead, p, regs);
      LinesTimeConcat(Scans(calls, ts, lo, hi - 1, lead, p, regs), ScanLines(calls, ts, hi - 1, lead, p, regs));
    }
  }

  lemma RealStep(n: nat, t: real)
    ensures Times(0, t) == 0.0
    ensures n >= 1 ==> Times(n, t) == Times(n - 1, t) + t
  {
    if n >= 1 {
      assert n as real == (n - 1) as real + 1.0;
    }
  }

  lemma RealProduct(n: nat, m: nat, rem: nat, t: real)
    ensures n as real * Times(m, t) + Times(rem, t) == Times(n * m + rem, t)
    ensures n == 0 ==> n as real * Times(m, t) == 0.0
  {
    assert (n * m) as real == n as real * m as real;
  }

  /** The time createPS reports is nt scans, for every sequence: multiplying the looped cycle's
      time by its count is exact. */
  lemma ReportedTimeIsNtScans(calls: seq<Call>, p: Params, regs: seq<int>)
    requires ValidCalls(calls)
    ensures ProgramTime(calls, p, regs) == Times(p.nt, SequenceSeconds(WithAcquire(calls), p))
  {
    hide Scans, SequenceSeconds, LinesTime, WithAcquire, Plan, Times;
    var plan, ts, t := Plan(calls, p), EmittedTables(calls, p), SequenceSeconds(WithAcquire(calls), p);
    PlanIs(calls, p);
    ScansSeconds(calls, ts, 0, plan.cycle, true, p, regs);
    ScansSeconds(calls, ts, plan.cycle, plan.cycle + plan.rem, false, p, regs);
    RealProduct(plan.loops, plan.cycle, plan.rem, t);
  }

  // ----- exp_time against the board ------------------------------------------------------------------

  /** The nanoseconds a trace takes. */
  function TotalNs(acts: seq<Action>): real {
    if acts == [] then 0.0 else acts[0].ns + TotalNs(acts[1..])
  }

  lemma {:induction false} TotalNsConcat(a: seq<Action>, b: seq<Action>)
    ensures TotalNs(a + b) == TotalNs(a) + TotalNs(b)
  {
    if a == [] {
      assert a + b == b;
    } else {
      assert (a + b)[1..] == a[1..] + b;
      TotalNsConcat(a[1..], b);
    }
  }

  lemma {:induction false} TotalNsRepeat(a: seq<Action>, n: nat)
    ensures TotalNs(Repeat(a, n)) == Times(n, TotalNs(a))
  {
    hide Times;
    RealStep(n, TotalNs(a));
    if n > 0 {
      TotalNsRepeat(a, n - 1);
      TotalNsConcat(a, Repeat(a, n - 1));
    }
  }

  /** exp_time adds a negative ringdown that no instruction performs. */
  function Shortfall(l: Line): real {
    if l.PulseElem? && l.width > 0.0 && l.ringdown < 0.0 then -l.ringdown else 0.0
  }

  function ShortfallOf(ls: seq<Line>): (d: real)
    ensures d >= 0.0
  {
    if ls == [] then 0.0 else Shortfall(ls[0]) + ShortfallOf(ls[1..])
  }

  lemma LineNs(l: Line, ctl: Control, at: real)
    requires IsElement(l)
    ensures TotalNs(Emitted(l, ctl, at)) == NS * (Elapsed(l, at) + Shortfall(l))
  {
    var acts := Emitted(l, ctl, at);
    if |acts| == 1 {
      assert acts[1..] == [];
    } else if |acts| == 2 {
      TwoNs(acts[0], acts[1]);
      assert acts == [acts[0], acts[1]];
    } else if |acts| == 3 {
      TwoNs(acts[1], acts[2]);
      assert acts[1..] == [acts[1], acts[2]];
    }
  }

  lemma TwoNs(a: Action, b: Action)
    ensures TotalNs([a, b]) == a.ns + b.ns
  {
    assert [a, b][1..] == [b] && [b][1..] == [];
    assert TotalNs([b]) == b.ns + TotalNs([]);
  }

  lemma {:induction false} LinesNs(ls: seq<Line>, ctl: Control, at: real)
    requires Elements(ls)
    ensures TotalNs(Acts(ls, ctl, at)) == NS * (TimeOfLines(ls, at) + ShortfallOf(ls))
  {
    hide Emitted, Elapsed, Shortfall, Controlled;
    if ls != [] {
      var ctl' := Controlled(ls[0], ctl, at);
      LineNs(ls[0], ctl, at);
      LinesNs(ls[1..], ctl', at);
      TotalNsConcat(Emitted(ls[0], ctl, at), Acts(ls[1..], ctl', at));
    }
  }

  lemma ElementsSplit(ls: seq<Line>)
    requires Elements(ls) && ls != []
    ensures Elements(ls[..|ls| - 1]) && IsElement(ls[|ls| - 1])
  {
  }

  lemma TimeSplit(ls: seq<Line>, at: real)
    requires ls != []
    ensures TimeOfLines(ls, at) == TimeOfLines(ls[..|ls| - 1], at) + Elapsed(ls[|ls| - 1], at)
  {
    hide Elapsed;
    var pre, last := ls[..|ls| - 1], ls[|ls| - 1];
    assert ls == pre + [last] && [last][1..] == [];
    TimeConcat(pre, [last], at);
  }

  lemma {:induction false} ShortfallConcat(a: seq<Line>, b: seq<Line>)
    ensures ShortfallOf(a + b) == ShortfallOf(a) + ShortfallOf(b)
  {
    if a == [] {
      assert a + b == b;
    } else {
      assert (a + b)[1..] == a[1..] + b;
      ShortfallConcat(a[1..], b);
    }
  }
}
