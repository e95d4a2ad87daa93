/** How many acquisitions the board triggers, wherever the loop's two operations land. */
module PulseTriggers {
  import opened Arithmetic
  import opened Phase
  import opened PulseText
  import opened Board
  import opened B12Compiler
  import opened PulseMeaning
  import opened PulseCorrectness
  import opened PulseTheorems
  import opened PulsePhases
  import opened PulseTiming
  import opened PulseExpTime

  // ----- lines ------------------------------------------------------------------------------------------

  function LineTriggers(l: Line): nat {
    if l.AcquireElem? then 1 else 0
  }

  function TriggersOf(ls: seq<Line>): nat {
    if ls == [] then 0 else LineTriggers(ls[0]) + TriggersOf(ls[1..])
  }

  lemma {:induction false} TriggersOfConcat(a: seq<Line>, b: seq<Line>)
    ensures TriggersOf(a + b) == TriggersOf(a) + TriggersOf(b)
  {
    if a == [] {
      assert a + b == b;
    } else {
      assert (a + b)[1..] == a[1..] + b;
      TriggersOfConcat(a[1..], b);
    }
  }

  lemma EmittedTriggers(l: Line, ctl: Control, at: real)
    requires IsElement(l)
    ensures Triggers(Emitted(l, ctl, at)) == LineTriggers(l)
    ensures Count(l) > 0 ==> |Emitted(l, ctl, at)| == Count(l) && Triggers(Emitted(l, ctl, at)[..Count(l) - 1]) == 0
  {
    var acts := Emitted(l, ctl, at);
    if l.AcquireElem? {
      assert acts[1..] == [] && acts[..0] == [];
    } else {
      NoTrigger(acts);
      if Count(l) > 0 { NoTrigger(acts[..Count(l) - 1]); }
    }
  }

  lemma {:induction false} LinesTriggers(ls: seq<Line>, ctl: Control, at: real)
    requires Elements(ls)
    ensures Triggers(Acts(ls, ctl, at)) == TriggersOf(ls)
  {
    hide Emitted, Controlled, LineTriggers, Triggers;
    if ls == [] {
      NoTrigger([]);
    } else {
      var ctl' := Controlled(ls[0], ctl, at);
      EmittedTriggers(ls[0], ctl, at);
      LinesTriggers(ls[1..], ctl', at);
      TriggersConcat(Emitted(ls[0], ctl, at), Acts(ls[1..], ctl', at));
    }
  }

  /** Nothing is triggered before the last instruction of the first line that programs any. */
  lemma {:induction false} FirstTriggers(ls: seq<Line>, ctl: Control, at: real)
    requires Elements(ls) && FirstCount(ls) > 0
    ensures FirstCount(ls) <= |Acts(ls, ctl, at)|
    ensures Triggers(Acts(ls, ctl, at)[..FirstCount(ls) - 1]) == 0
    ensures Triggers(Acts(ls, ctl, at)[..FirstCount(ls)]) == LineTriggers(First(ls))
  {
    hide Emitted, Controlled, Count, Triggers;
    var l, ctl' := ls[0], Controlled(ls[0], ctl, at);
    var first, rest := Emitted(l, ctl, at), Acts(ls[1..], ctl', at);
    CountEmitted(l, ctl, at);
    if Count(l) == 0 {
      assert first + rest == rest;
      FirstTriggers(ls[1..], ctl', at);
    } else {
      EmittedTriggers(l, ctl, at);
      assert (first + rest)[..Count(l) - 1] == first[..Count(l) - 1];
      assert (first + rest)[..Count(l)] == first;
    }
  }

  // ----- the board's trace --------------------------------------------------------------------------------

  lemma {:induction false} TriggersRepeat(a: seq<Action>, n: nat)
    ensures Triggers(Repeat(a, n)) == n * Triggers(a)
  {
    hide Triggers;
    if n == 0 {
      NoTrigger([]);
    } else {
      TriggersRepeat(a, n - 1);
      TriggersConcat(a, Repeat(a, n - 1));
      MulStep(n, Triggers(a));
    }
  }

  lemma StopTriggers()
    ensures Triggers([STOP_ACTION]) == 0
  {
    assert [STOP_ACTION][1..] == [];
  }

  /** A stretch that is performed n times and begins where nothing has been triggered. */
  lemma StretchTriggers(all: seq<Action>, from: nat, end: nat, n: nat)
    requires from <= end <= |all| && n >= 1 && Triggers(all[..from]) == 0
    ensures Triggers(all[..from] + Repeat(all[from..end], n) + all[end..] + [STOP_ACTION])
            == Triggers(all) + (n - 1) * Triggers(all[..end])
  {
    hide Triggers, Repeat;
    var a, b, c := all[..from], all[from..end], all[end..];
    TriggersConcat(a + Repeat(b, n) + c, [STOP_ACTION]);
    TriggersConcat(a + Repeat(b, n), c);
    TriggersConcat(a, Repeat(b, n));
    TriggersRepeat(b, n);
    StopTriggers();
    assert all == all[..end] + c && all[..end] == a + b;
    TriggersConcat(all[..end], c);
    TriggersConcat(a, b);
    MulStep(n, Triggers(b));
  }

  /** What the board triggers for a loop of n passes over pre + [last], then rest. */
  function LoopTriggers(pre: seq<Line>, last: Line, rest: seq<Line>, n: nat): nat
    requires n >= 1
  {
    var t, r := TriggersOf(pre) + LineTriggers(last), TriggersOf(rest);
    t + r + if FirstCount(pre) == 0 then 0
            else if Count(last) > 0 then (n - 1) * t
            else if FirstCount(rest) > 0 then (n - 1) * (t + LineTriggers(First(rest)))
            else 0
  }

  lemma LoopActsTriggers(pre: seq<Line>, last: Line, rest: seq<Line>, ctl: Control, at: real)
    requires Elements(pre) && IsElement(last) && Elements(rest)
    ensures Triggers(LoopActs(pre, last, ctl, at)) == TriggersOf(pre) + LineTriggers(last)
    ensures Triggers(RestActs(pre, last, rest, ctl, at)) == TriggersOf(rest)
    ensures Triggers(LoopActs(pre, last, ctl, at) + RestActs(pre, last, rest, ctl, at))
            == Triggers(LoopActs(pre, last, ctl, at)) + Triggers(RestActs(pre, last, rest, ctl, at))
    ensures FirstCount(rest) > 0 ==>
              FirstCount(rest) <= |RestActs(pre, last, rest, ctl, at)|
              && Triggers(RestActs(pre, last, rest, ctl, at)[..FirstCount(rest)]) == LineTriggers(First(rest))
  {
    hide Emitted, Controlled, Triggers, LineTriggers, First;
    var c := ControlAfter(pre, ctl, at);
    LinesTriggers(pre, ctl, at);
    EmittedTriggers(last, c, at);
    TriggersConcat(Acts(pre, ctl, at), Emitted(last, c, at));
    LinesTriggers(rest, Controlled(last, c, at), at);
    TriggersConcat(LoopActs(pre, last, ctl, at), RestActs(pre, last, rest, ctl, at));
    if FirstCount(rest) > 0 { FirstTriggers(rest, Controlled(last, c, at), at); }
  }

  lemma JumpTriggers(pre: seq<Line>, last: Line, rest: seq<Line>, n: nat, ctl: Control, at: real)
    requires Elements(pre) && IsElement(last) && Elements(rest) && n >= 1 && Jumps(pre, last, rest)
    ensures Triggers(LoopTrace(pre, last, rest, n, ctl, at)) == LoopTriggers(pre, last, rest, n)
  {
    hide Acts, RestActs, Triggers, TriggersOf, LineTriggers, Repeat, First, ControlAfter, Controlled;
    var x, y := LoopActs(pre, last, ctl, at), RestActs(pre, last, rest, ctl, at);
    var all, from, end := x + y, FirstCount(pre) - 1, LoopEnd(pre, last, rest, ctl, at);
    LoopActsTriggers(pre, last, rest, ctl, at);
    FirstTriggers(pre, ctl, at);
    assert all[..from] == Acts(pre, ctl, at)[..from];
    StretchTriggers(all, from, end, n);
    if Count(last) > 0 {
      assert all[..end] == x;
    } else {
      assert all[..end] == x + y[..FirstCount(rest)];
      TriggersConcat(x, y[..FirstCount(rest)]);
    }
  }

  lemma TraceTriggers(pre: seq<Line>, last: Line, rest: seq<Line>, n: nat, ctl: Control, at: real)
    requires Elements(pre) && IsElement(last) && Elements(rest) && n >= 1
    requires FirstCount(pre) > 0 || Count(last) > 0
    ensures Triggers(LoopTrace(pre, last, rest, n, ctl, at)) == LoopTriggers(pre, last, rest, n)
  {
    if Jumps(pre, last, rest) {
      JumpTriggers(pre, last, rest, n, ctl, at);
    } else {
      hide LoopActs, RestActs, Triggers, TriggersOf, LineTriggers, First;
      LoopActsTriggers(pre, last, rest, ctl, at);
      TriggersConcat(LoopActs(pre, last, ctl, at) + RestActs(pre, last, rest, ctl, at), [STOP_ACTION]);
      StopTriggers();
    }
  }

  // ----- on the sequence's calls ----------------------------------------------------------------------------

  lemma CallLinesTriggers(c: Call, ts: seq<Table>, i: nat, p: Params, regs: seq<int>)
    requires ValidTables(ts)
    ensures TriggersOf(CallLines(c, ts, i, p, regs)) == if c.Acquire? then 1 else 0
  {
    hide PhaseAt, RegisterOf, Quantise;
    var ls := CallLines(c, ts, i, p, regs);
    if |ls| == 1 {
      assert ls[1..] == [];
    } else if |ls| == 2 {
      assert ls[1..][1..] == [] && ls[1..][0] == ls[1];
      assert TriggersOf(ls[1..]) == LineTriggers(ls[1]) + TriggersOf(ls[1..][1..]);
    }
  }

  lemma {:induction false} SequenceTriggers(calls: seq<Call>, ts: seq<Table>, i: nat, p: Params, regs: seq<int>)
    requires ValidTables(ts) && ValidCalls(calls)
    ensures TriggersOf(Lines(calls, ts, i, p, regs)) == Acquisitions(calls)
  {
    hide CallLines, CallTables, ValidTables;
    if calls != [] {
      var a, b := CallLines(calls[0], ts, i, p, regs), Lines(calls[1..], CallTables(calls[0], ts), i, p, regs);
      CallLinesTriggers(calls[0], ts, i, p, regs);
      SequenceTriggers(calls[1..], CallTables(calls[0], ts), i, p, regs);
      TriggersOfConcat(a, b);
    }
  }

  lemma ScanLinesTriggers(calls: seq<Call>, ts: seq<Table>, i: nat, lead: bool, p: Params, regs: seq<int>)
    requires ValidTables(ts) && ValidCalls(calls)
    ensures TriggersOf(ScanLines(calls, ts, i, lead, p, regs)) == Acquisitions(WithAcquire(calls))
  {
    hide Lines, RegisterOf, Quantise, TailLines, Acquisitions;
    var intro, own := [PhaseReset] + LeadLines(lead, p, regs), Lines(WithAcquire(calls), ts, i, p, regs);
    AcquireAtEnd(calls, ts, i, p, regs);
    assert ScanLines(calls, ts, i, lead, p, regs) == intro + own;
    SequenceTriggers(WithAcquire(calls), ts, i, p, regs);
    TriggersOfConcat(intro, own);
    assert intro[1..] == LeadLines(lead, p, regs) && (lead ==> LeadLines(lead, p, regs)[1..] == []);
  }

  lemma NothingTriggers()
    ensures TriggersOf([]) == 0
  {
  }

  lemma {:induction false} RangeTriggers(calls: seq<Call>, ts: seq<Table>, lo: nat, hi: nat, lead: bool, p: Params,
                                         regs: seq<int>)
    requires ValidTables(ts) && ValidCalls(calls) && lo <= hi
    ensures TriggersOf(Scans(calls, ts, lo, hi, lead, p, regs)) == (hi - lo) * Acquisitions(WithAcquire(calls))
    decreases hi
  {
    hide ScanLines, Acquisitions, WithAcquire, TriggersOf;
    if lo == hi {
      NothingTriggers();
    } else {
      var before, scan := Scans(calls, ts, lo, hi - 1, lead, p, regs), ScanLines(calls, ts, hi - 1, lead, p, regs);
      RangeTriggers(calls, ts, lo, hi - 1, lead, p, regs);
      ScanLinesTriggers(calls, ts, hi - 1, lead, p, regs);
      TriggersOfConcat(before, scan);
      MulStep(hi - lo, Acquisitions(WithAcquire(calls)));
    }
  }

  lemma {:induction false} AcquiresOnce(calls: seq<Call>)
    requires HasAcquire(calls)
    ensures Acquisitions(calls) >= 1
  {
    if !calls[0].Acquire? {
      var k :| 0 <= k < |calls| && calls[k].Acquire?;
      assert calls[1..][k - 1].Acquire?;
      AcquiresOnce(calls[1..]);
    }
  }

  lemma OwnAcquires(calls: seq<Call>)
    ensures Acquisitions(WithAcquire(calls)) >= 1
  {
    assert !HasAcquire(calls) ==> WithAcquire(calls)[|calls|].Acquire?;
    AcquiresOnce(WithAcquire(calls));
  }

  /** The loop is performed as often as it says, and no acquisition of the remainder with it. */
  predicate TriggersKept(own: seq<Call>, p: Params, plan: LoopPlan) {
    || plan.loops == 0
    || (if EndsEmitting(own) then !Overwritten(own, p, plan.cycle)
        else plan.rem > 0 && !FirstElement(own, p).AcquireElem?)
  }

  /** The triggers of a FID: those of its scans, but for passes that are not made and an acquisition of the
      remainder that is taken into the loop. */
  function FidTriggers(own: seq<Call>, p: Params, plan: LoopPlan): nat {
    var a := Acquisitions(own);
    if plan.loops == 0 || (EndsEmitting(own) && !Overwritten(own, p, plan.cycle)) then p.nt * a
    else if EndsEmitting(own) || plan.rem == 0 then plan.cycle * a + plan.rem * a
    else p.nt * a + (plan.loops - 1) * LineTriggers(FirstElement(own, p))
  }

  lemma BodyTriggers(body: seq<Line>)
    requires body != []
    ensures TriggersOf(body) == TriggersOf(body[..|body| - 1]) + LineTriggers(body[|body| - 1])
  {
    var pre, last := body[..|body| - 1], body[|body| - 1];
    assert body == pre + [last] && [last][1..] == [];
    TriggersOfConcat(pre, [last]);
  }

  lemma PassTriggers(n: nat, c: nat, r: nat, a: nat, x: nat)
    requires n >= 1
    ensures c * a + r * a + (n - 1) * (c * a) == (n * c + r) * a
    ensures c * a + r * a + (n - 1) * (c * a + x) == (n * c + r) * a + (n - 1) * x
  {
    MulStep(n, c * a);
    Associate(n, c, a);
    Distribute(n * c, r, a);
    Over(n - 1, c * a, x);
  }

  lemma Over(n: nat, x: nat, y: nat)
    ensures n * (x + y) == n * x + n * y
  {
  }

  lemma LoopedTriggers(calls: seq<Call>, ts: seq<Table>, plan: LoopPlan, p: Params, regs: seq<int>)
    requires ValidTables(ts) && ValidCalls(calls) && plan.loops >= 2 && plan.rem < plan.cycle
    requires plan.loops * plan.cycle + plan.rem == p.nt
    ensures var body, rest := BodyOf(calls, ts, plan, p, regs), RestOf(calls, ts, plan, p, regs);
            body != [] && LoopTriggers(body[..|body| - 1], body[|body| - 1], rest, plan.loops)
                          == FidTriggers(WithAcquire(calls), p, plan)
  {
    hide Scans, WithAcquire, FirstCount, EmittingElements, EndsEmitting, Count, First, FirstElement, TriggersOf,
         LineTriggers, Acquisitions;
    var own, a := WithAcquire(calls), Acquisitions(WithAcquire(calls));
    var body, rest := BodyOf(calls, ts, plan, p, regs), RestOf(calls, ts, plan, p, regs);
    BodyCounts(calls, ts, plan, p, regs);
    BodyTriggers(body);
    RangeTriggers(calls, ts, 0, plan.cycle, true, p, regs);
    RangeTriggers(calls, ts, plan.cycle, plan.cycle + plan.rem, false, p, regs);
    ScansShort(calls, ts, plan.cycle, plan.cycle + plan.rem, false, p, regs);
    PassTriggers(plan.loops, plan.cycle, plan.rem, a, LineTriggers(FirstElement(own, p)));
  }

  /** How many acquisitions the board triggers, for every sequence. */
  lemma TriggersCounted(calls: seq<Call>, p: Params, regs: seq<int>, ix: nat, e: Exps, trace: seq<Action>)
    requires ValidCalls(calls) && Performs(FidState(calls, p, regs, ix, e).board, trace)
    ensures Triggers(trace) == FidTriggers(WithAcquire(calls), p, Plan(calls, p))
  {
    hide Performs, Triggers, FidState, Plan, Acquisitions, EndsEmitting, WithAcquire;
    PlanIs(calls, p);
    if Plan(calls, p).loops == 0 {
      UnloopedTriggers(calls, p, regs, ix, e, trace);
    } else {
      LoopedFidTriggers(calls, p, regs, ix, e, trace);
    }
  }

  lemma UnloopedTriggers(calls: seq<Call>, p: Params, regs: seq<int>, ix: nat, e: Exps, trace: seq<Action>)
    requires ValidCalls(calls) && Plan(calls, p).loops == 0 && Performs(FidState(calls, p, regs, ix, e).board, trace)
    ensures Triggers(trace) == p.nt * Acquisitions(WithAcquire(calls))
  {
    hide Scans, Acts, Performs, Triggers, FidState, Plan, RefScans, TriggersOf;
    var ts, rest := EmittedTables(calls, p), Remainder(calls, p, regs);
    PlanIs(calls, p);
    var trace' := UnloopedTrace(calls, p, regs, ix, e);
    PerformsOnce(FidState(calls, p, regs, ix, e).board, trace, trace');
    ScansMeaning(calls, ts, 0, p.nt, false, p, regs, START_CONTROL, e.at);
    LinesTriggers(rest, START_CONTROL, e.at);
    RangeTriggers(calls, ts, 0, p.nt, false, p, regs);
    TriggersConcat(Acts(rest, START_CONTROL, e.at), [STOP_ACTION]);
    StopTriggers();
  }

  lemma LoopedFidTriggers(calls: seq<Call>, p: Params, regs: seq<int>, ix: nat, e: Exps, trace: seq<Action>)
    requires ValidCalls(calls) && Plan(calls, p).loops > 0 && Performs(FidState(calls, p, regs, ix, e).board, trace)
    ensures Triggers(trace) == FidTriggers(WithAcquire(calls), p, Plan(calls, p))
  {
    hide Scans, Compile, FidLines, Performs, Triggers, FidState, FidTriggers, Plan, LoopTrace, LoopTriggers;
    var plan, ts, h := Plan(calls, p), EmittedTables(calls, p), HeaderState(e);
    PlanIs(calls, p);
    LoopShape(calls, p, regs, ix, e);
    var body, rest := BodyOf(calls, ts, plan, p, regs), RestOf(calls, ts, plan, p, regs);
    var pre, last := body[..|body| - 1], body[|body| - 1];
    GoodBody(calls, ts, plan, p, regs);
    BodyTraced(body, rest, plan.loops, p.nt, ix, h);
    PerformsOnce(FidState(calls, p, regs, ix, e).board, trace, LoopTrace(pre, last, rest, plan.loops, h.ctl, h.at));
    TraceTriggers(pre, last, rest, plan.loops, h.ctl, h.at);
    LoopedTriggers(calls, ts, plan, p, regs);
  }

  /** MAIN RESULT.  The board triggers as many acquisitions as nt scans ask for if and only if the loop is
      performed as often as it says and takes no acquisition of the remainder in. */
  lemma TriggersExact(calls: seq<Call>, p: Params, regs: seq<int>, ix: nat, e: Exps, trace: seq<Action>)
    requires ValidCalls(calls) && Performs(FidState(calls, p, regs, ix, e).board, trace)
    ensures Triggers(trace) == p.nt * Acquisitions(WithAcquire(calls))
            <==> TriggersKept(WithAcquire(calls), p, Plan(calls, p))
  {
    hide Performs, Triggers, FidState, Plan, Acquisitions, EndsEmitting, EmittingElements, FirstElement, WithAcquire;
    var own, plan, a := WithAcquire(calls), Plan(calls, p), Acquisitions(WithAcquire(calls));
    TriggersCounted(calls, p, regs, ix, e, trace);
    OwnAcquires(calls);
    PlanIs(calls, p);
    if plan.loops > 0 { MissedPasses(plan.loops, plan.cycle, plan.rem, a); }
  }

  /** So a sequence that acquires once per scan triggers the board nt times if and only if that. */
  lemma TriggersNtTimes(calls: seq<Call>, p: Params, regs: seq<int>, ix: nat, e: Exps, trace: seq<Action>)
    requires ValidCalls(calls) && Performs(FidState(calls, p, regs, ix, e).board, trace)
    requires Acquisitions(WithAcquire(calls)) == 1
    ensures Triggers(trace) == p.nt <==> TriggersKept(WithAcquire(calls), p, Plan(calls, p))
  {
    hide *;
    TriggersExact(calls, p, regs, ix, e, trace);
  }

  lemma MissedPasses(n: nat, c: nat, r: nat, a: nat)
    requires n >= 2 && c >= 1 && a >= 1
    ensures c * a + r * a < (n * c + r) * a
  {
    PassTriggers(n, c, r, a, 0);
    MulPositive(c, a);
    MulPositive(n - 1, c * a);
  }
}
