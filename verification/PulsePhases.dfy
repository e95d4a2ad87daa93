/** Which entry of each table scan s of a program uses, and how many acquisitions it triggers. */
module PulsePhases {
  import opened Arithmetic
  import opened Phase
  import opened PulseText
  import opened Board
  import opened B12Compiler
  import opened PulseMeaning
  import opened PulseTheorems

  /** The index createPS gives scan s: the loop repeats 0 .. cycle-1 and the scans left over
      count on from cycle. */
  function ScanIndex(plan: LoopPlan, s: nat): nat {
    if plan.loops == 0 || plan.cycle == 0 then s
    else if s < plan.loops * plan.cycle then s % plan.cycle
    else plan.cycle + (s - plan.loops * plan.cycle)
  }

  lemma SameEntry(q: nat, r: nat, m: nat, len: nat)
    requires len >= 1 && m % len == 0
    ensures (q * m + r) % len == r % len
  {
    ModProduct(q, m, len);
    ModSum(r, q * m, len);
  }

  lemma LoopedIndex(plan: LoopPlan, m: nat, nt: nat, s: nat, len: nat)
    requires m >= 1 && plan == CheckLoop(m, nt) && len >= 1 && m % len == 0
    ensures ScanIndex(plan, s) % len == s % len
  {
    if plan.loops > 0 {
      if s < plan.loops * m {
        EarlyIndex(s, m, len);
      } else {
        LateIndex(plan.loops, s - plan.loops * m, m, len);
      }
    }
  }

  lemma EarlyIndex(s: nat, m: nat, len: nat)
    requires m >= 1 && len >= 1 && m % len == 0
    ensures (s % m) % len == s % len
  {
    var q, r := s / m, s % m;
    assert q * m + r == s;
    SameEntry(q, r, m, len);
  }

  lemma LateIndex(n: nat, j: nat, m: nat, len: nat)
    requires len >= 1 && m % len == 0
    ensures (m + j) % len == (n * m + j) % len
  {
    SameEntry(n, j, m, len);
    ModSum(j, m, len);
  }

  /** Scan s uses entry s mod len of a table of length len, for every scan of the experiment, if
      and only if there is no loop or the length divides the loop's cycle. */
  lemma EntriesExact(m: nat, nt: nat, len: nat)
    requires m >= 1 && len >= 1
    ensures (forall s :: 0 <= s < nt ==> ScanIndex(CheckLoop(m, nt), s) % len == s % len)
            <==> CheckLoop(m, nt).loops == 0 || m % len == 0
  {
    var plan := CheckLoop(m, nt);
    if plan.loops == 0 {
    } else if m % len == 0 {
      forall s | 0 <= s < nt ensures ScanIndex(plan, s) % len == s % len {
        LoopedIndex(plan, m, nt, s, len);
      }
    } else {
      assert plan.loops * m >= 2 * m;
      assert nt >= plan.loops * m;
      FirstOfSecondPass(m);
      assert ScanIndex(plan, m) == 0 && m < nt;
    }
  }

  lemma FirstOfSecondPass(m: nat)
    requires m >= 1
    ensures m % m == 0
  {
  }

  /** The cycle is at least as long as the receiver's table and every in-use table from t1 on ... */
  lemma InUseWithinCycle(ts: seq<Table>, t: nat)
    requires ValidTables(ts) && (t == OPH || (T1 <= t < OPH && ts[t].inUse))
    ensures 1 <= |ts[t].phase| <= PhaseCycle(ts)
  {
    PhaseCycleIsLeastBound(ts, PhaseCycle(ts));
  }

  /** ... but it takes no notice of what settable makes of the tables below t1, in use or not. */
  lemma LowTablesIgnored(ts: seq<Table>, tab: nat, vals: seq<int>)
    requires |ts| == OPH + 1 && tab < T1
    ensures PhaseCycle(WithTable(ts, tab, vals)) == PhaseCycle(ts)
  {
    LowTables(ts, tab, vals, OPH);
  }

  lemma {:induction false} LowTables(ts: seq<Table>, tab: nat, vals: seq<int>, n: nat)
    requires |ts| == OPH + 1 && tab < T1 <= n <= OPH
    ensures LongestBelow(WithTable(ts, tab, vals), n) == LongestBelow(ts, n)
  {
    if n > T1 { LowTables(ts, tab, vals, n - 1); }
  }

  /** The scans 0 .. hi-1 of the program, each with the index createPS gives it. */
  function IndexedScans(full: bool, calls: seq<Call>, ts: seq<Table>, plan: LoopPlan, hi: nat, p: Params,
                        regs: seq<int>, at: real): seq<Action>
    requires ValidTables(ts) && ValidCalls(calls)
  {
    if hi == 0 then []
    else IndexedScans(full, calls, ts, plan, hi - 1, p, regs, at)
         + View(full, RefScan(calls, ts, ScanIndex(plan, hi - 1), p, regs, at))
  }

  lemma {:induction false} IndexedTail(full: bool, calls: seq<Call>, ts: seq<Table>, plan: LoopPlan, base: nat, lo: nat,
                                       k: nat, p: Params, regs: seq<int>, at: real)
    requires ValidTables(ts) && ValidCalls(calls)
    requires forall s :: base <= s < base + k ==> ScanIndex(plan, s) == lo + (s - base)
    ensures IndexedScans(full, calls, ts, plan, base + k, p, regs, at)
            == IndexedScans(full, calls, ts, plan, base, p, regs, at)
                + RefScans(full, calls, ts, lo, lo + k, p, regs, at)
    decreases k
  {
    hide RefScan, View, ScanIndex;
    if k > 0 {
      IndexedTail(full, calls, ts, plan, base, lo, k - 1, p, regs, at);
    }
  }

  lemma {:induction false} IndexedLoop(full: bool, calls: seq<Call>, ts: seq<Table>, plan: LoopPlan, n: nat, p: Params,
                                       regs: seq<int>, at: real)
    requires ValidTables(ts) && ValidCalls(calls) && n <= plan.loops && plan.cycle >= 1
    ensures IndexedScans(full, calls, ts, plan, n * plan.cycle, p, regs, at)
            == Repeat(RefScans(full, calls, ts, 0, plan.cycle, p, regs, at), n)
  {
    hide RefScan, View, RefScans;
    if n > 0 {
      var s, base := RefScans(full, calls, ts, 0, plan.cycle, p, regs, at), (n - 1) * plan.cycle;
      IndexedLoop(full, calls, ts, plan, n - 1, p, regs, at);
      MulStep(n, plan.cycle);
      forall s | base <= s < base + plan.cycle ensures ScanIndex(plan, s) == 0 + (s - base) {
        LoopIndexAt(plan, n - 1, s - base);
      }
      IndexedTail(full, calls, ts, plan, base, 0, plan.cycle, p, regs, at);
      RepeatEnd(s, n);
    }
  }

  lemma LoopIndexAt(plan: LoopPlan, k: nat, j: nat)
    requires k < plan.loops && j < plan.cycle
    ensures ScanIndex(plan, k * plan.cycle + j) == j
  {
    ModUnique(k * plan.cycle + j, k, j, plan.cycle);
    assert k * plan.cycle + j < (k + 1) * plan.cycle;
    assert (k + 1) * plan.cycle <= plan.loops * plan.cycle by { MulMonotone(k + 1, plan.loops, plan.cycle); }
  }

  lemma MulMonotone(a: nat, b: nat, c: nat)
    requires a <= b
    ensures a * c <= b * c
  {
  }

  lemma {:induction false} RepeatEnd(s: seq<Action>, n: nat)
    requires n >= 1
    ensures Repeat(s, n) == Repeat(s, n - 1) + s
  {
    if n == 1 {
      assert Repeat(s, 0) == [] && s + [] == s && [] + s == s;
    } else {
      RepeatEnd(s, n - 1);
      assert s + (Repeat(s, n - 2) + s) == (s + Repeat(s, n - 2)) + s;
    }
  }

  /** What a looped program performs is scan after scan, scan s with index ScanIndex(s). */
  lemma LoopedIsIndexed(full: bool, calls: seq<Call>, p: Params, regs: seq<int>, at: real)
    requires ValidCalls(calls) && Plan(calls, p).loops > 0
    ensures LoopedRef(full, calls, EmittedTables(calls, p), Plan(calls, p), p, regs, at)
            == IndexedScans(full, calls, EmittedTables(calls, p), Plan(calls, p), p.nt, p, regs, at) + [STOP_ACTION]
  {
    hide RefScans, RefScan, IndexedScans, Plan;
    var plan, ts := Plan(calls, p), EmittedTables(calls, p);
    PlanIs(calls, p);
    IndexedLoop(full, calls, ts, plan, plan.loops, p, regs, at);
    IndexedTail(full, calls, ts, plan, plan.loops * plan.cycle, plan.cycle, plan.rem, p, regs, at);
  }

  // ----- acquisitions ---------------------------------------------------------------------------------

  function Triggers(acts: seq<Action>): nat {
    if acts == [] then 0 else (if acts[0].trigger then 1 else 0) + Triggers(acts[1..])
  }

  function Acquisitions(calls: seq<Call>): nat {
    if calls == [] then 0 else (if calls[0].Acquire? then 1 else 0) + Acquisitions(calls[1..])
  }

  lemma {:induction false} TriggersConcat(a: seq<Action>, b: seq<Action>)
    ensures Triggers(a + b) == Triggers(a) + Triggers(b)
  {
    if a == [] {
      assert a + b == b;
    } else {
      assert (a + b)[1..] == a[1..] + b;
      TriggersConcat(a[1..], b);
    }
  }

  lemma {:induction false} NoTrigger(acts: seq<Action>)
    requires forall k :: 0 <= k < |acts| ==> !acts[k].trigger
    ensures Triggers(acts) == 0
  {
    if acts != [] {
      NoTrigger(acts[1..]);
    }
  }

  lemma CallTriggers(c: Call, ts: seq<Table>, i: nat, p: Params, ctl: Control, at: real)
    requires ValidTables(ts)
    ensures Triggers(StripAll(RefCall(c, ts, i, p, ctl, at))) == if c.Acquire? then 1 else 0
  {
    hide PhaseAt;
    var acts := StripAll(RefCall(c, ts, i, p, ctl, at));
    if c.Acquire? {
      var k := |acts| - 1;
      NoTrigger(acts[..k]);
      TriggersConcat(acts[..k], [acts[k]]);
      assert acts == acts[..k] + [acts[k]] && [acts[k]][1..] == [];
    } else {
      NoTrigger(acts);
    }
  }

  lemma {:induction false} ScanTriggers(calls: seq<Call>, ts: seq<Table>, i: nat, p: Params, regs: seq<int>,
                                        ctl: Control, at: real)
    requires ValidTables(ts) && ValidCalls(calls)
    ensures Triggers(StripAll(RefCalls(calls, ts, i, p, regs, ctl, at))) == Acquisitions(calls)
  {
    hide RefCall, RefControl, PhaseAt, ValidTables;
    if calls != [] {
      var c, ts' := calls[0], CallTables(calls[0], ts);
      CallTriggers(c, ts, i, p, ctl, at);
      ScanTriggers(calls[1..], ts', i, p, regs, RefControl(c, p, regs, ctl), at);
      StripConcat(RefCall(c, ts, i, p, ctl, at),
                  RefCalls(calls[1..], ts', i, p, regs, RefControl(c, p, regs, ctl), at));
      TriggersConcat(StripAll(RefCall(c, ts, i, p, ctl, at)),
                     StripAll(RefCalls(calls[1..], ts', i, p, regs, RefControl(c, p, regs, ctl), at)));
    }
  }

  /** hi scans trigger hi times the acquisitions of one scan. */
  lemma {:induction false} ScansTriggers(calls: seq<Call>, ts: seq<Table>, hi: nat, p: Params, regs: seq<int>, at: real)
    requires ValidTables(ts) && ValidCalls(calls)
    ensures Triggers(RefScans(false, calls, ts, 0, hi, p, regs, at)) == hi * Acquisitions(WithAcquire(calls))
    decreases hi
  {
    hide RefCalls, StripAll, Acquisitions, RegisterOf, Quantise;
    if hi > 0 {
      var reg := RegisterOf(regs, Quantise(p.tpwrf));
      ScansTriggers(calls, ts, hi - 1, p, regs, at);
      ScanTriggers(WithAcquire(calls), ts, hi - 1, p, regs, Control(0, reg, ShapeOf(reg), true), at);
      TriggersConcat(RefScans(false, calls, ts, 0, hi - 1, p, regs, at),
                     StripAll(RefScan(calls, ts, hi - 1, p, regs, at)));
      MulStep(hi, Acquisitions(WithAcquire(calls)));
    }
  }

  lemma {:induction false} StripTriggers(acts: seq<Action>)
    ensures Triggers(StripAll(acts)) == Triggers(acts)
  {
    if acts != [] {
      StripTriggers(acts[1..]);
      assert StripAll(acts)[1..] == StripAll(acts[1..]);
    }
  }

  /** A trace of nt scans triggers nt times what one scan does. */
  lemma NtScansTrigger(calls: seq<Call>, p: Params, regs: seq<int>, at: real, trace: seq<Action>)
    requires ValidCalls(calls) && StripAll(trace) == NtScans(false, calls, p, regs, at)
    ensures Triggers(trace) == p.nt * Acquisitions(WithAcquire(calls))
  {
    hide RefScans, StripAll, WithAcquire;
    var s := RefScans(false, calls, EmittedTables(calls, p), 0, p.nt, p, regs, at);
    ScansTriggers(calls, EmittedTables(calls, p), p.nt, p, regs, at);
    StripTriggers(trace);
    TriggersConcat(s, [STOP_ACTION]);
    assert [STOP_ACTION][1..] == [] && Triggers([STOP_ACTION]) == 0;
  }
}
