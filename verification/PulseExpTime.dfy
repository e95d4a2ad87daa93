/** The dispatch loop's exp_time against the time that the board takes, wherever the loop's two
    operations land. */
module PulseExpTime {
  import opened Phase
  import opened PulseText
  import opened Board
  import opened B12Compiler
  import opened PulseMeaning
  import opened PulseCorrectness
  import opened PulseTheorems
  import opened PulseTiming

  // ----- the first line that programs an instruction ----------------------------------------------------

  /** A line without what differs from scan to scan. */
  function Bare(l: Line): Line {
    if l.PulseElem? then l.(phase := 0) else if l.AcquireElem? then AcquireElem(0) else l
  }

  function First(ls: seq<Line>): Line {
    if ls == [] then PhaseReset else if Count(ls[0]) > 0 then Bare(ls[0]) else First(ls[1..])
  }

  /** The time of a line's instructions before its last. */
  function Lead(l: Line): real {
    if l.PulseElem? && l.width > 0.0 then
      (if l.blank > 0.0 then l.blank else 0.0) + (if l.ringdown > 0.0 then l.width else 0.0)
    else 0.0
  }

  lemma {:induction false} FirstConcat(a: seq<Line>, b: seq<Line>)
    ensures First(a + b) == if FirstCount(a) > 0 then First(a) else First(b)
  {
    if a == [] {
      assert a + b == b;
    } else {
      assert (a + b)[1..] == a[1..] + b;
      FirstConcat(a[1..], b);
    }
  }

  lemma LeadNs(l: Line, ctl: Control, at: real)
    requires IsElement(l) && Count(l) > 0
    ensures |Emitted(l, ctl, at)| == Count(l)
    ensures TotalNs(Emitted(l, ctl, at)[..Count(l) - 1]) == NS * Lead(l)
  {
    var acts := Emitted(l, ctl, at);
    if |acts| == 1 {
      assert acts[..0] == [];
    } else if |acts| == 2 {
      assert acts[..1] == [acts[0]] && [acts[0]][1..] == [];
    } else {
      TwoNs(acts[0], acts[1]);
      assert acts[..2] == [acts[0], acts[1]];
    }
  }

  lemma {:induction false} FirstNs(ls: seq<Line>, ctl: Control, at: real)
    requires Elements(ls) && FirstCount(ls) > 0
    ensures FirstCount(ls) <= |Acts(ls, ctl, at)|
    ensures TotalNs(Acts(ls, ctl, at)[..FirstCount(ls) - 1]) == NS * Lead(First(ls))
    ensures TotalNs(Acts(ls, ctl, at)[..FirstCount(ls)]) == NS * (FirstTime(ls, at) + Shortfall(First(ls)))
  {
    hide Emitted, Elapsed, Shortfall, Controlled, Count, Lead, TotalNs;
    var l, ctl' := ls[0], Controlled(ls[0], ctl, at);
    var first, rest := Emitted(l, ctl, at), Acts(ls[1..], ctl', at);
    CountEmitted(l, ctl, at);
    if Count(l) == 0 {
      assert first + rest == rest;
      FirstNs(ls[1..], ctl', at);
    } else {
      LeadNs(l, ctl, at);
      LineNs(l, ctl, at);
      BareSame(l);
      assert (first + rest)[..Count(l) - 1] == first[..Count(l) - 1];
      assert (first + rest)[..Count(l)] == first;
    }
  }

  lemma BareSame(l: Line)
    ensures Lead(Bare(l)) == Lead(l) && Shortfall(Bare(l)) == Shortfall(l) && Count(Bare(l)) == Count(l)
  {
  }

  // ----- exp_time ---------------------------------------------------------------------------------------

  /** END_LOOP on the last element multiplies the time so far; in the rest it multiplies that up to the
      rest's first element; never written it multiplies nothing. */
  function ExpSeconds(pre: seq<Line>, last: Line, rest: seq<Line>, n: nat, at: real): real {
    var t, r, f := TimeOfLines(pre, at) + Elapsed(last, at), TimeOfLines(rest, at), FirstTime(rest, at);
    (if Count(last) > 0 then Times(n, t) + r else if FirstCount(rest) > 0 then Times(n, t + f) + (r - f) else t + r)
    + MIN_DELAY / NS
  }

  lemma {:induction false} NoTime(ls: seq<Line>, at: real)
    requires Elements(ls) && FirstCount(ls) == 0
    ensures TimeOfLines(ls, at) == 0.0 && ShortfallOf(ls) == 0.0
  {
    if ls != [] {
      CountEmitted(ls[0], START_CONTROL, at);
      NoTime(ls[1..], at);
    }
  }

  lemma AfterPreTime(pre: seq<Line>, n: nat, e: Exps)
    requires Elements(pre) && Fresh(e)
    ensures var e1 := AfterPre(pre, n, e);
            e1.expTime == TimeOfLines(pre, e.at) && e1.loopCnt == n && e1.at == e.at
  {
    if FirstCount(pre) == 0 { NoTime(pre, e.at); }
  }

  lemma AfterLastTime(pre: seq<Line>, last: Line, n: nat, e: Exps)
    requires Elements(pre) && IsElement(last) && Fresh(e)
    ensures var e2, t := AfterLoop(pre, last, n, e), TimeOfLines(pre, e.at) + Elapsed(last, e.at);
            && e2.at == e.at && e2.loopCnt == n
            && (if Count(last) > 0 then e2.op == Continue && e2.expTime == Times(n, t)
                else e2.op.EndLoop? && e2.expTime == t)
  {
    hide AfterPre, Emitted, Elapsed, Controlled, TimeOfLines, Place;
    var e1 := AfterPre(pre, n, e);
    AfterPreTime(pre, n, e);
    CompileOne(last, e1.(op := EndLoop(e1.loop)));
    CountEmitted(last, e1.ctl, e.at);
  }

  lemma RestTime(rest: seq<Line>, e: Exps, n: nat, t: real)
    requires Elements(rest) && e.op.EndLoop? && e.loopCnt == n && e.expTime == t
    ensures var r, f := TimeOfLines(rest, e.at), FirstTime(rest, e.at);
            Compile(rest, e).expTime == if FirstCount(rest) > 0 then Times(n, t + f) + (r - f) else t + r
  {
    hide Compile, Acts, ControlAfter, Place, TimeOfLines, FirstTime;
    CompilePending(rest, e);
    if FirstCount(rest) == 0 {
      NoTime(rest, e.at);
    } else {
      Commute(n, t + FirstTime(rest, e.at));
    }
  }

  lemma Commute(n: nat, t: real)
    ensures t * n as real == Times(n, t)
  {
  }

  lemma ExpTimeIs(pre: seq<Line>, last: Line, rest: seq<Line>, n: nat, nt: nat, ix: nat, e: Exps)
    requires Elements(pre) && IsElement(last) && Elements(rest) && Fresh(e)
    ensures Compile(FidLines(pre, last, rest, n, nt, ix), e).expTime == ExpSeconds(pre, last, rest, n, e.at)
  {
    hide AfterPre, Acts, ControlAfter, Place, TimeOfLines, Elapsed, FirstTime, CompileLine, FidLines, Compile, Times;
    var e2 := AfterLoop(pre, last, n, e);
    CompileFid(pre, last, rest, n, nt, ix, e);
    AfterLastTime(pre, last, n, e);
    if Count(last) > 0 {
      CompilePlain(rest, e2);
    } else {
      RestTime(rest, e2, n, e2.expTime);
    }
  }

  // ----- the board's time ---------------------------------------------------------------------------------

  lemma TimesFacts(n: nat, x: real, y: real)
    ensures n >= 1 ==> Times(n, x) == Times(n - 1, x) + x
    ensures Times(n, x + y) == Times(n, x) + Times(n, y) && Times(n, x - y) == Times(n, x) - Times(n, y)
    ensures Times(n, NS * x) == NS * Times(n, x)
  {
    if n >= 1 {
      assert n as real == (n - 1) as real + 1.0;
    }
    TimesScale(n as real, x);
  }

  lemma TimesScale(n: real, x: real)
    ensures n * (NS * x) == NS * (n * x)
  {
  }

  /** A stretch that is performed n times. */
  lemma StretchNs(all: seq<Action>, from: nat, end: nat, n: nat)
    requires from <= end <= |all| && n >= 1
    ensures TotalNs(all[..from] + Repeat(all[from..end], n) + all[end..] + [STOP_ACTION])
            == TotalNs(all) + Times(n - 1, TotalNs(all[..end]) - TotalNs(all[..from])) + MIN_DELAY
  {
    hide Times, Repeat;
    var a, b, c := all[..from], all[from..end], all[end..];
    TotalNsConcat(a + Repeat(b, n) + c, [STOP_ACTION]);
    TotalNsConcat(a + Repeat(b, n), c);
    TotalNsConcat(a, Repeat(b, n));
    TotalNsRepeat(b, n);
    assert [STOP_ACTION][1..] == [];
    assert all == all[..end] + c && all[..end] == a + b;
    TotalNsConcat(all[..end], c);
    TotalNsConcat(a, b);
    TimesFacts(n, TotalNs(b), 0.0);
  }

  /** How much longer the board takes than exp_time says. */
  function Gap(pre: seq<Line>, last: Line, rest: seq<Line>, n: nat, at: real): real
    requires n >= 1
  {
    var s, r := ShortfallOf(pre) + Shortfall(last), ShortfallOf(rest);
    if FirstCount(pre) == 0 then s + r - Times(n - 1, TimeOfLines(pre, at) + Elapsed(last, at))
    else if Count(last) > 0 then Times(n, s) + r - Times(n - 1, Lead(First(pre)))
    else if FirstCount(rest) > 0 then Times(n, s) + r - Times(n - 1, Lead(First(pre)) - Shortfall(First(rest)))
    else s + r
  }

  lemma LoopNs(pre: seq<Line>, last: Line, rest: seq<Line>, ctl: Control, at: real)
    requires Elements(pre) && IsElement(last) && Elements(rest)
    ensures TotalNs(LoopActs(pre, last, ctl, at))
            == NS * (TimeOfLines(pre, at) + Elapsed(last, at) + (ShortfallOf(pre) + Shortfall(last)))
    ensures TotalNs(RestActs(pre, last, rest, ctl, at)) == NS * (TimeOfLines(rest, at) + ShortfallOf(rest))
    ensures TotalNs(LoopActs(pre, last, ctl, at) + RestActs(pre, last, rest, ctl, at))
            == TotalNs(LoopActs(pre, last, ctl, at)) + TotalNs(RestActs(pre, last, rest, ctl, at))
  {
    hide Emitted, Elapsed, Shortfall, Controlled, TimeOfLines, ShortfallOf;
    var c := ControlAfter(pre, ctl, at);
    LinesNs(pre, ctl, at);
    LineNs(last, c, at);
    TotalNsConcat(Acts(pre, ctl, at), Emitted(last, c, at));
    LinesNs(rest, Controlled(last, c, at), at);
    TotalNsConcat(LoopActs(pre, last, ctl, at), RestActs(pre, last, rest, ctl, at));
  }

  lemma JumpSum(n: nat, t: real, s: real, r: real, q: real, lead: real, f: real, g: real)
    requires n >= 1
    ensures NS * (t + s) + NS * (r + q) + Times(n - 1, NS * (t + s) + NS * (f + g) - NS * lead) + MIN_DELAY
            == NS * ((Times(n, t + f) + (r - f) + MIN_DELAY / NS) + (Times(n, s) + q - Times(n - 1, lead - g)))
  {
    hide Times;
    var x := t + s + (f + g) - lead;
    assert NS * (t + s) + NS * (f + g) - NS * lead == NS * x;
    TimesFacts(n - 1, x, 0.0);
    TimesFacts(n, t + f, 0.0);
    TimesFacts(n, s, 0.0);
    TimesFacts(n - 1, t + f, s);
    TimesFacts(n - 1, t + f + s, lead - g);
    assert x == t + f + s - (lead - g);
  }

  /** Both operations land, and LOOP first. */
  lemma JumpNs(pre: seq<Line>, last: Line, rest: seq<Line>, n: nat, ctl: Control, at: real)
    requires Elements(pre) && IsElement(last) && Elements(rest) && n >= 1 && Jumps(pre, last, rest)
    ensures TotalNs(LoopTrace(pre, last, rest, n, ctl, at))
            == NS * (ExpSeconds(pre, last, rest, n, at) + Gap(pre, last, rest, n, at))
  {
    hide Acts, RestActs, Elapsed, Shortfall, TimeOfLines, ShortfallOf, TotalNs, Lead, Times, Repeat, First, FirstTime,
         ControlAfter, Controlled;
    var x, y := LoopActs(pre, last, ctl, at), RestActs(pre, last, rest, ctl, at);
    var all, from, end := x + y, FirstCount(pre) - 1, LoopEnd(pre, last, rest, ctl, at);
    var t, s := TimeOfLines(pre, at) + Elapsed(last, at), ShortfallOf(pre) + Shortfall(last);
    var r, q, lead := TimeOfLines(rest, at), ShortfallOf(rest), Lead(First(pre));
    LoopNs(pre, last, rest, ctl, at);
    StretchNs(all, from, end, n);
    FirstNs(pre, ctl, at);
    assert all[..from] == Acts(pre, ctl, at)[..from];
    if Count(last) > 0 {
      assert all[..end] == x;
      JumpSum(n, t, s, r, q, lead, 0.0, 0.0);
    } else {
      RestFirstNs(pre, last, rest, ctl, at);
      assert all[..end] == x + y[..FirstCount(rest)];
      TotalNsConcat(x, y[..FirstCount(rest)]);
      JumpSum(n, t, s, r, q, lead, FirstTime(rest, at), Shortfall(First(rest)));
    }
  }

  lemma RestFirstNs(pre: seq<Line>, last: Line, rest: seq<Line>, ctl: Control, at: real)
    requires Elements(rest) && FirstCount(rest) > 0
    ensures FirstCount(rest) <= |RestActs(pre, last, rest, ctl, at)|
    ensures TotalNs(RestActs(pre, last, rest, ctl, at)[..FirstCount(rest)])
            == NS * (FirstTime(rest, at) + Shortfall(First(rest)))
  {
    FirstNs(rest, Controlled(last, ControlAfter(pre, ctl, at), at), at);
  }

  lemma OnceSum(n: nat, t: real, s: real, r: real, q: real)
    requires n >= 1
    ensures NS * (t + s) + NS * (r + q) + MIN_DELAY
            == NS * ((Times(n, t) + r + MIN_DELAY / NS) + (s + q - Times(n - 1, t)))
    ensures NS * (t + s) + NS * (r + q) + MIN_DELAY == NS * ((t + r + MIN_DELAY / NS) + (s + q))
  {
    hide Times;
    TimesFacts(n, t, 0.0);
  }

  /** One operation at most takes effect. */
  lemma OnceNs(pre: seq<Line>, last: Line, rest: seq<Line>, n: nat, ctl: Control, at: real)
    requires Elements(pre) && IsElement(last) && Elements(rest) && n >= 1 && !Jumps(pre, last, rest)
    requires FirstCount(pre) > 0 || Count(last) > 0
    ensures TotalNs(LoopTrace(pre, last, rest, n, ctl, at))
            == NS * (ExpSeconds(pre, last, rest, n, at) + Gap(pre, last, rest, n, at))
  {
    hide Acts, LoopActs, RestActs, Elapsed, Shortfall, TimeOfLines, ShortfallOf, Lead, Times, First, FirstTime;
    var all := LoopActs(pre, last, ctl, at) + RestActs(pre, last, rest, ctl, at);
    LoopNs(pre, last, rest, ctl, at);
    TotalNsConcat(all, [STOP_ACTION]);
    assert [STOP_ACTION][1..] == [];
    OnceSum(n, TimeOfLines(pre, at) + Elapsed(last, at), ShortfallOf(pre) + Shortfall(last), TimeOfLines(rest, at),
            ShortfallOf(rest));
  }

  lemma GapIs(pre: seq<Line>, last: Line, rest: seq<Line>, n: nat, nt: nat, ix: nat, e: Exps)
    requires Elements(pre) && IsElement(last) && Elements(rest) && Fresh(e) && n >= 1
    requires FirstCount(pre) > 0 || Count(last) > 0
    ensures TotalNs(LoopTrace(pre, last, rest, n, e.ctl, e.at))
            == NS * (Compile(FidLines(pre, last, rest, n, nt, ix), e).expTime + Gap(pre, last, rest, n, e.at))
  {
    hide Compile, FidLines, LoopTrace, TotalNs, ExpSeconds, Gap;
    ExpTimeIs(pre, last, rest, n, nt, ix, e);
    if Jumps(pre, last, rest) {
      JumpNs(pre, last, rest, n, e.ctl, e.at);
    } else {
      OnceNs(pre, last, rest, n, e.ctl, e.at);
    }
  }

  // ----- the same, on the sequence's calls ------------------------------------------------------------------

  /** What a pulse's negative ringdown takes off exp_time and off nothing else. */
  function PulseShort(width: real, ringdown: real): real {
    if width > 0.0 && ringdown < 0.0 then -ringdown else 0.0
  }

  function CallShort(c: Call, p: Params): (s: real)
    ensures s >= 0.0
  {
    match c
    case Pulse(width, _) => PulseShort(width, p.rof2)
    case RgPulse(width, _, _, rg2) => PulseShort(width, rg2)
    case _ => 0.0
  }

  function ScanShort(calls: seq<Call>, p: Params): (s: real)
    ensures s >= 0.0
  {
    if calls == [] then 0.0 else CallShort(calls[0], p) + ScanShort(calls[1..], p)
  }

  /** The first element that programs an instruction. */
  function CallFirst(c: Call, p: Params): Line {
    match c
    case Delay(time) => DelayElem(time)
    case Pulse(width, _) => PulseElem(width, 0, p.rof1, p.rof2)
    case RgPulse(width, _, rg1, rg2) => PulseElem(width, 0, rg1, rg2)
    case Acquire => if p.alfa > 0.0 then DelayElem(p.alfa) else AcquireElem(0)
    case _ => PhaseReset
  }

  function FirstElement(calls: seq<Call>, p: Params): Line {
    if calls == [] then PhaseReset
    else if CallCount(calls[0], p) > 0 then CallFirst(calls[0], p)
    else FirstElement(calls[1..], p)
  }

  lemma CallShortIs(c: Call, ts: seq<Table>, i: nat, p: Params, regs: seq<int>)
    requires ValidTables(ts)
    ensures ShortfallOf(CallLines(c, ts, i, p, regs)) == CallShort(c, p)
    ensures CallCount(c, p) > 0 ==> First(CallLines(c, ts, i, p, regs)) == CallFirst(c, p)
  {
    hide PhaseAt, RegisterOf, Quantise;
    var ls := CallLines(c, ts, i, p, regs);
    if |ls| == 1 {
      assert ls[1..] == [];
    } else if |ls| == 2 {
      assert ShortfallOf(ls[1..]) == Shortfall(ls[1]) + ShortfallOf(ls[1..][1..]);
      assert ls[1..][1..] == [];
    }
  }

  lemma {:induction false} LinesShort(calls: seq<Call>, ts: seq<Table>, i: nat, p: Params, regs: seq<int>)
    requires ValidTables(ts) && ValidCalls(calls)
    ensures ShortfallOf(Lines(calls, ts, i, p, regs)) == ScanShort(calls, p)
    ensures First(Lines(calls, ts, i, p, regs)) == FirstElement(calls, p)
  {
    hide CallLines, CallShort, CallFirst, CallCount;
    if calls != [] {
      var a, b := CallLines(calls[0], ts, i, p, regs), Lines(calls[1..], CallTables(calls[0], ts), i, p, regs);
      CallShortIs(calls[0], ts, i, p, regs);
      CallCounts(calls[0], ts, i, p, regs);
      LinesShort(calls[1..], CallTables(calls[0], ts), i, p, regs);
      ShortfallConcat(a, b);
      FirstConcat(a, b);
    }
  }

  lemma ScanLinesShort(calls: seq<Call>, ts: seq<Table>, i: nat, lead: bool, p: Params, regs: seq<int>)
    requires ValidTables(ts) && ValidCalls(calls)
    ensures ShortfallOf(ScanLines(calls, ts, i, lead, p, regs)) == ScanShort(WithAcquire(calls), p)
    ensures First(ScanLines(calls, ts, i, lead, p, regs)) == FirstElement(WithAcquire(calls), p)
  {
    hide Lines, RegisterOf, Quantise, TailLines, ScanShort, FirstElement;
    var intro, own := [PhaseReset] + LeadLines(lead, p, regs), Lines(WithAcquire(calls), ts, i, p, regs);
    AcquireAtEnd(calls, ts, i, p, regs);
    assert ScanLines(calls, ts, i, lead, p, regs) == intro + own;
    LinesShort(WithAcquire(calls), ts, i, p, regs);
    ShortfallConcat(intro, own);
    FirstConcat(intro, own);
    assert intro[1..] == LeadLines(lead, p, regs) && (lead ==> LeadLines(lead, p, regs)[1..] == []);
  }

  lemma {:induction false} ScansShort(calls: seq<Call>, ts: seq<Table>, lo: nat, hi: nat, lead: bool, p: Params,
                                      regs: seq<int>)
    requires ValidTables(ts) && ValidCalls(calls) && lo <= hi
    ensures ShortfallOf(Scans(calls, ts, lo, hi, lead, p, regs)) == Times(hi - lo, ScanShort(WithAcquire(calls), p))
    ensures lo < hi ==> First(Scans(calls, ts, lo, hi, lead, p, regs)) == FirstElement(WithAcquire(calls), p)
    decreases hi
  {
    hide ScanLines, ScanShort, WithAcquire, Times, First, FirstElement;
    RealStep(hi - lo, ScanShort(WithAcquire(calls), p));
    if lo < hi {
      var before, scan := Scans(calls, ts, lo, hi - 1, lead, p, regs), ScanLines(calls, ts, hi - 1, lead, p, regs);
      ScansShort(calls, ts, lo, hi - 1, lead, p, regs);
      ScanLinesShort(calls, ts, hi - 1, lead, p, regs);
      ShortfallConcat(before, scan);
      FirstConcat(before, scan);
      if lo < hi - 1 {
        ScansGood(calls, ts, lo, hi - 1, lead, p, regs, FirstInstructions(WithAcquire(calls), p));
      } else {
        assert before == [];
      }
    }
  }

  // ----- when they are the same -------------------------------------------------------------------------------

  /** The loop's two operations fall on one and the same instruction, the second in place of the first. */
  predicate Overwritten(own: seq<Call>, p: Params, cycle: nat) {
    EndsEmitting(own) && cycle == 1 && EmittingElements(own, p) == 1
  }

  /** exp_time is the board's time.  `at` is the acquisition time. */
  predicate TimeKept(own: seq<Call>, p: Params, plan: LoopPlan, at: real) {
    var short, first := Times(p.nt, ScanShort(own, p)), FirstElement(own, p);
    if plan.loops == 0 then short == 0.0
    else if Overwritten(own, p, plan.cycle) then at == 0.0
    else if EndsEmitting(own) then short == Times(plan.loops - 1, Lead(first))
    else if plan.rem == 0 then ScanShort(own, p) == 0.0
    else short == Times(plan.loops - 1, Lead(first) - Shortfall(first))
  }

  /** A sequence whose only instruction is the acquisition's. */
  lemma {:induction false} OnlyAcquires(calls: seq<Call>, ts: seq<Table>, i: nat, p: Params, regs: seq<int>, at: real)
    requires ValidTables(ts) && ValidCalls(calls) && EmittingElements(calls, p) == if HasAcquire(calls) then 1 else 0
    ensures ScanShort(calls, p) == 0.0
    ensures TimeOfLines(Lines(calls, ts, i, p, regs), at) == if HasAcquire(calls) then at * 0.001 else 0.0
  {
    hide CallLines, CallTables, ValidTables, CallShort, EmittingElements, HasAcquire;
    if calls != [] {
      var c, rest := calls[0], calls[1..];
      assert [c] + rest == calls;
      AcquireCounts(c, rest, p);
      AcquireTime(c, ts, i, p, regs, at);
      OnlyAcquires(rest, CallTables(c, ts), i, p, regs, at);
      TimeConcat(CallLines(c, ts, i, p, regs), Lines(rest, CallTables(c, ts), i, p, regs), at);
    } else {
      NoAcquire();
    }
  }

  lemma NoAcquire()
    ensures !HasAcquire([])
  {
  }

  lemma AcquireTime(c: Call, ts: seq<Table>, i: nat, p: Params, regs: seq<int>, at: real)
    requires ValidTables(ts) && if c.Acquire? then p.alfa <= 0.0 else CallCount(c, p) == 0
    ensures TimeOfLines(CallLines(c, ts, i, p, regs), at) == (if c.Acquire? then at * 0.001 else 0.0)
            && CallShort(c, p) == 0.0
  {
    hide PhaseAt, RegisterOf, Quantise;
    var a := CallLines(c, ts, i, p, regs);
    assert |a| <= 1 && (|a| == 1 ==> a[1..] == []);
  }

  lemma AcquireCounts(c: Call, rest: seq<Call>, p: Params)
    requires EmittingElements([c] + rest, p) == if HasAcquire([c] + rest) then 1 else 0
    ensures EmittingElements(rest, p) == if HasAcquire(rest) then 1 else 0
    ensures if c.Acquire? then !HasAcquire(rest) && HasAcquire([c] + rest) && p.alfa <= 0.0
            else CallCount(c, p) == 0 && HasAcquire([c] + rest) == HasAcquire(rest)
  {
    assert ([c] + rest)[1..] == rest && ([c] + rest)[0] == c;
    if HasAcquire(rest) {
      AcquiringSequence(rest, p);
      var k :| 0 <= k < |rest| && rest[k].Acquire?;
      assert ([c] + rest)[k + 1].Acquire?;
    }
  }

  lemma OverwrittenTime(calls: seq<Call>, ts: seq<Table>, p: Params, regs: seq<int>, at: real)
    requires ValidTables(ts) && ValidCalls(calls) && EmittingElements(WithAcquire(calls), p) == 1
    ensures ScanShort(WithAcquire(calls), p) == 0.0
    ensures TimeOfLines(Scans(calls, ts, 0, 1, true, p, regs), at) == at * 0.001
  {
    hide Lines, RegisterOf, Quantise, TailLines, ScanShort, EmittingElements;
    var intro, own := [PhaseReset] + LeadLines(true, p, regs), WithAcquire(calls);
    assert HasAcquire(own) by { assert !HasAcquire(calls) ==> own[|calls|].Acquire?; }
    AcquireAtEnd(calls, ts, 0, p, regs);
    assert Scans(calls, ts, 0, 1, true, p, regs) == intro + Lines(own, ts, 0, p, regs);
    OnlyAcquires(own, ts, 0, p, regs, at);
    TimeConcat(intro, Lines(own, ts, 0, p, regs), at);
    assert intro[1..] == LeadLines(true, p, regs) && LeadLines(true, p, regs)[1..] == [];
  }

  /** The gap of a split body in terms of the body. */
  lemma BodyGap(body: seq<Line>, rest: seq<Line>, n: nat, at: real)
    requires body != [] && n >= 1
    ensures var pre, last := body[..|body| - 1], body[|body| - 1];
            Gap(pre, last, rest, n, at) ==
              if FirstCount(pre) == 0 then ShortfallOf(body) + ShortfallOf(rest) - Times(n - 1, TimeOfLines(body, at))
              else if Count(last) > 0 then
                Times(n, ShortfallOf(body)) + ShortfallOf(rest) - Times(n - 1, Lead(First(body)))
              else if FirstCount(rest) > 0 then
                Times(n, ShortfallOf(body)) + ShortfallOf(rest) - Times(n - 1,
                      Lead(First(body)) - Shortfall(First(rest)))
              else ShortfallOf(body) + ShortfallOf(rest)
  {
    hide Shortfall, TimeOfLines, Elapsed, Lead, Times;
    var pre, last := body[..|body| - 1], body[|body| - 1];
    assert body == pre + [last] && [last][1..] == [];
    ShortfallConcat(pre, [last]);
    FirstConcat(pre, [last]);
    TimeSplit(body, at);
  }

  lemma BodyCounts(calls: seq<Call>, ts: seq<Table>, plan: LoopPlan, p: Params, regs: seq<int>)
    requires ValidTables(ts) && ValidCalls(calls) && plan.cycle >= 1
    ensures var body, own := BodyOf(calls, ts, plan, p, regs), WithAcquire(calls);
            && body != []
            && (FirstCount(body[..|body| - 1]) == 0 <==> Overwritten(own, p, plan.cycle))
            && (Count(body[|body| - 1]) > 0 <==> EndsEmitting(own))
    ensures FirstCount(RestOf(calls, ts, plan, p, regs)) > 0 <==> plan.rem > 0
  {
    hide Scans, WithAcquire, FirstCount, EmitLines, FirstInstructions, EmittingElements, EndsEmitting, Count, Elements;
    var own, body := WithAcquire(calls), BodyOf(calls, ts, plan, p, regs);
    ScansCounts(calls, own, ts, 0, plan.cycle, true, p, regs);
    SplitLast(body);
    ScansGood(calls, ts, plan.cycle, plan.cycle + plan.rem, false, p, regs, FirstInstructions(own, p));
  }

  lemma LoopedGap(calls: seq<Call>, ts: seq<Table>, plan: LoopPlan, p: Params, regs: seq<int>, at: real)
    requires ValidTables(ts) && ValidCalls(calls) && plan.loops >= 2 && plan.rem < plan.cycle
    requires plan.loops * plan.cycle + plan.rem == p.nt
    ensures var body, rest := BodyOf(calls, ts, plan, p, regs), RestOf(calls, ts, plan, p, regs);
            body != [] && (Gap(body[..|body| - 1], body[|body| - 1], rest, plan.loops, at) == 0.0
                           <==> TimeKept(WithAcquire(calls), p, plan, at))
  {
    hide Scans, WithAcquire, FirstCount, EmittingElements, EndsEmitting, Count, Gap, Times, Lead, Shortfall, First,
         FirstElement, TimeOfLines, ScanShort;
    var own, n := WithAcquire(calls), plan.loops;
    var body, rest, s := BodyOf(calls, ts, plan, p, regs), RestOf(calls, ts, plan, p, regs), ScanShort(own, p);
    BodyCounts(calls, ts, plan, p, regs);
    BodyGap(body, rest, n, at);
    ScansShort(calls, ts, 0, plan.cycle, true, p, regs);
    ScansShort(calls, ts, plan.cycle, plan.cycle + plan.rem, false, p, regs);
    ProductTimes(n, plan.cycle, plan.rem, s);
    if Overwritten(own, p, plan.cycle) {
      OverwrittenTime(calls, ts, p, regs, at);
      TimesZero(n - 1, at * 0.001);
      TimesZero(1, s);
      TimesZero(0, s);
    } else if !EndsEmitting(own) && plan.rem == 0 {
      TimesZero(plan.cycle, s);
      TimesZero(0, s);
    }
  }

  lemma ProductTimes(n: nat, m: nat, rem: nat, t: real)
    ensures Times(n, Times(m, t)) + Times(rem, t) == Times(n * m + rem, t)
  {
    RealProduct(n, m, rem, t);
  }

  lemma TimesZero(n: nat, t: real)
    ensures Times(n, t) == 0.0 <==> n == 0 || t == 0.0
  {
    if n > 0 && t != 0.0 {
      assert n as real * t != 0.0;
    }
  }

  /** The board performs LoopTrace for a body and a rest of scans. */
  lemma BodyTraced(body: seq<Line>, rest: seq<Line>, n: nat, nt: nat, ix: nat, e: Exps)
    requires GoodLines(body, rest) && Fresh(e) && n >= 1
    ensures var pre, last := body[..|body| - 1], body[|body| - 1];
            && Elements(pre) && IsElement(last) && (FirstCount(pre) > 0 || Count(last) > 0)
            && Performs(Compile(FidLines(pre, last, rest, n, nt, ix), e).board,
               LoopTrace(pre, last, rest, n, e.ctl, e.at))
  {
    hide Compile, FidLines, Performs, LoopTrace, Acts, ControlAfter;
    var pre, last := body[..|body| - 1], body[|body| - 1];
    ElementsSplit(body);
    SplitLast(body);
    LoopActsAre(body, rest, e.ctl, e.at);
    FirstCountActs(body, e.ctl, e.at);
    LoopPerforms(pre, last, rest, n, nt, ix, e);
  }

  lemma LoopedTime(calls: seq<Call>, ts: seq<Table>, plan: LoopPlan, p: Params, regs: seq<int>, ix: nat, e: Exps,
                   body: seq<Line>, rest: seq<Line>, trace: seq<Action>)
    requires ValidTables(ts) && ValidCalls(calls) && plan.loops >= 2 && plan.rem < plan.cycle && Fresh(e)
    requires plan.loops * plan.cycle + plan.rem == p.nt
    requires body == BodyOf(calls, ts, plan, p, regs) && rest == RestOf(calls, ts, plan, p, regs) && body != []
    requires Performs(Compile(FidLines(body[..|body| - 1], body[|body| - 1], rest, plan.loops, p.nt, ix), e).board,
             trace)
    ensures TotalNs(trace)
            == NS * Compile(FidLines(body[..|body| - 1], body[|body| - 1], rest, plan.loops, p.nt, ix), e).expTime
            <==> TimeKept(WithAcquire(calls), p, plan, e.at)
  {
    hide Scans, Acts, Compile, FidLines, Performs, TotalNs, ControlAfter, Gap, TimeKept, LoopTrace;
    var pre, last := body[..|body| - 1], body[|body| - 1];
    GoodBody(calls, ts, plan, p, regs);
    BodyTraced(body, rest, plan.loops, p.nt, ix, e);
    PerformsOnce(Compile(FidLines(pre, last, rest, plan.loops, p.nt, ix), e).board, trace,
                 LoopTrace(pre, last, rest, plan.loops, e.ctl, e.at));
    GapIs(pre, last, rest, plan.loops, p.nt, ix, e);
    LoopedGap(calls, ts, plan, p, regs, e.at);
  }

  lemma UnloopedTime(calls: seq<Call>, p: Params, regs: seq<int>, ix: nat, e: Exps, trace: seq<Action>)
    requires ValidCalls(calls) && Plan(calls, p).loops == 0
    requires Performs(FidState(calls, p, regs, ix, e).board, trace)
    ensures TotalNs(trace) == NS * FidState(calls, p, regs, ix, e).expTime
            <==> TimeKept(WithAcquire(calls), p, Plan(calls, p), e.at)
  {
    hide Scans, Acts, Performs, TimeOfLines, Plan, ShortfallOf, ScanShort, Times, Compile;
    var h, rest := HeaderState(e), Remainder(calls, p, regs);
    PlanIs(calls, p);
    var trace' := UnloopedTrace(calls, p, regs, ix, e);
    PerformsOnce(FidState(calls, p, regs, ix, e).board, trace, trace');
    UnloopedExpTime(calls, p, regs, ix, e);
    LinesNs(rest, START_CONTROL, e.at);
    TotalNsConcat(Acts(rest, START_CONTROL, e.at), [STOP_ACTION]);
    assert [STOP_ACTION][1..] == [];
    ScansShort(calls, EmittedTables(calls, p), 0, p.nt, false, p, regs);
  }

  lemma UnloopedExpTime(calls: seq<Call>, p: Params, regs: seq<int>, ix: nat, e: Exps)
    requires ValidCalls(calls) && Plan(calls, p).loops == 0
    ensures Elements(Remainder(calls, p, regs))
    ensures FidState(calls, p, regs, ix, e).expTime == TimeOfLines(Remainder(calls, p, regs), e.at) + MIN_DELAY / NS
  {
    hide Scans, Acts, TimeOfLines, Plan, RefScans;
    var h, rest := HeaderState(e), Remainder(calls, p, regs);
    PlanIs(calls, p);
    CompileFidText(calls, p, regs, ix, e);
    assert [] + rest == rest;
    ScansMeaning(calls, EmittedTables(calls, p), 0, p.nt, false, p, regs, h.ctl, h.at);
    CompilePlain(rest, h);
    CompileConcat(rest, [PulseprogDone(ix)], h);
    CompileSingle(PulseprogDone(ix), Compile(rest, h));
  }

  /** MAIN RESULT.  For every sequence, wherever LOOP and END_LOOP land: exp_time at PULSEPROG_DONE is
      the time the board takes, final STOP delay included, if and only if TimeKept. */
  lemma ExpTimeExact(calls: seq<Call>, p: Params, regs: seq<int>, ix: nat, e: Exps, trace: seq<Action>)
    requires ValidCalls(calls) && Performs(FidState(calls, p, regs, ix, e).board, trace)
    ensures TotalNs(trace) == NS * FidState(calls, p, regs, ix, e).expTime
            <==> TimeKept(WithAcquire(calls), p, Plan(calls, p), e.at)
  {
    hide Scans, Compile, FidLines, Performs, TotalNs, FidState, TimeKept, Plan;
    var plan, ts := Plan(calls, p), EmittedTables(calls, p);
    PlanIs(calls, p);
    if plan.loops == 0 {
      UnloopedTime(calls, p, regs, ix, e, trace);
    } else {
      PlanIs(calls, p);
      LoopShape(calls, p, regs, ix, e);
      LoopedTime(calls, ts, plan, p, regs, ix, HeaderState(e), BodyOf(calls, ts, plan, p, regs),
                 RestOf(calls, ts, plan, p, regs), trace);
    }
  }

  // ----- without negative ringdown delays ------------------------------------------------------------------------

  predicate CallRingsDown(c: Call, p: Params) {
    match c
    case Pulse(width, _) => width <= 0.0 || p.rof2 >= 0.0
    case RgPulse(width, _, _, rg2) => width <= 0.0 || rg2 >= 0.0
    case _ => true
  }

  /** No pulse that is performed has a negative ringdown delay. */
  predicate RingsDown(calls: seq<Call>, p: Params) {
    calls == [] || (CallRingsDown(calls[0], p) && RingsDown(calls[1..], p))
  }

  lemma {:induction false} RingsDownShort(calls: seq<Call>, p: Params)
    ensures ScanShort(calls, p) == 0.0 <==> RingsDown(calls, p)
    ensures RingsDown(calls, p) ==> Shortfall(FirstElement(calls, p)) == 0.0
    ensures FirstInstructions(calls, p) > 0
            ==> (Lead(FirstElement(calls, p)) == 0.0 <==> FirstInstructions(calls, p) == 1)
  {
    if calls != [] {
      RingsDownShort(calls[1..], p);
    }
  }

  /** Without negative ringdown delays the two times are the same when nothing is looped, when END_LOOP is
      never written, or when the first element is one instruction and is not the only one; placed well or
      not. */
  lemma RingsDownExact(calls: seq<Call>, p: Params, plan: LoopPlan, at: real)
    requires RingsDown(WithAcquire(calls), p) && plan.loops != 1
    ensures var own := WithAcquire(calls);
            TimeKept(own, p, plan, at) <==>
              plan.loops == 0
              || if Overwritten(own, p, plan.cycle) then at == 0.0
                 else FirstInstructions(own, p) == 1 || (!EndsEmitting(own) && plan.rem == 0)
  {
    hide ScanShort, FirstElement, EmittingElements, EndsEmitting, RingsDown, FirstInstructions, Shortfall, Lead,
         WithAcquire, Times;
    var own := WithAcquire(calls);
    RingsDownShort(own, p);
    OwnCounts(calls, p);
    TimesZero(p.nt, 0.0);
    if plan.loops >= 2 { TimesZero(plan.loops - 1, Lead(FirstElement(own, p))); }
  }

  /** A loop that is placed well keeps the time if and only if no performed pulse has a negative ringdown. */
  lemma WellPlacedExact(calls: seq<Call>, p: Params, plan: LoopPlan, at: real)
    requires plan.loops >= 2 && LoopPlacedWell(calls, p, plan.cycle) && plan.cycle >= 1 && p.nt > 0
    ensures TimeKept(WithAcquire(calls), p, plan, at) <==> RingsDown(WithAcquire(calls), p)
  {
    hide ScanShort, FirstElement, EmittingElements, EndsEmitting, RingsDown, FirstInstructions, Shortfall, Lead,
         WithAcquire, Times;
    RingsDownShort(WithAcquire(calls), p);
    TimesZero(p.nt, ScanShort(WithAcquire(calls), p));
    TimesZero(plan.loops - 1, 0.0);
  }
}
