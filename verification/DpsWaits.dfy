/** The estimate for sequences that wait their evolution delays, with the times that the simulator itself
    gives to their nodes. */
module DpsWaits {
  import opened DpsNodes
  import opened DpsBlocks
  import opened DpsTimer
  import opened DpsEvolution

  /** The seconds that a parameter stands for; others than numbers for none. */
  function Seconds(e: Env, name: string): real {
    if IsNum(e, name) then e[name].x else 0.0
  }

  /** A scan that waits the named delays, in order, among nodes of fixed widths. */
  datatype Wait = Fixed(width: real) | Named(name: string)

  function Width(w: Wait, e: Env): real {
    if w.Fixed? then w.width else Seconds(e, w.name)
  }

  function Scan(waits: seq<Wait>, e: Env): Block {
    if waits == [] then Done else Leaf(Timed(Width(waits[0], e)), Scan(waits[1..], e))
  }

  /** What simulate_dps_code makes of the scan. */
  function ScanTime(waits: seq<Wait>, inc: seq<real>, rt: Vars, e: Env): real
    requires |inc| == DELAYS
  {
    Run(Scan(waits, e), inc, rt).time
  }

  function ScanLeaf(waits: seq<Wait>, inc: seq<real>, rt: Vars): Env -> real
    requires |inc| == DELAYS
  {
    (e: Env) => ScanTime(waits, inc, rt, e)
  }

  function Uses(waits: seq<Wait>, name: string): nat {
    if waits == [] then 0 else (if waits[0] == Named(name) then 1 else 0) + Uses(waits[1..], name)
  }

  lemma ScanFirst(waits: seq<Wait>, inc: seq<real>, rt: Vars, e: Env)
    requires |inc| == DELAYS && waits != []
    ensures ScanTime(waits, inc, rt, e)
            == (if Width(waits[0], e) > 0.0 then Width(waits[0], e) else 0.0) + ScanTime(waits[1..], inc, rt, e)
  {
    var b, w := Scan(waits, e), Width(waits[0], e);
    assert b == Leaf(Timed(w), Scan(waits[1..], e));
    assert FrontOut(b, inc, rt) == Out(if w > 0.0 then w else 0.0, false, rt, 1);
  }

  /** The time grows by the delay as often as it is waited, and is never negative. */
  lemma {:induction false} WaitedOften(waits: seq<Wait>, inc: seq<real>, rt: Vars, e: Env, name: string, x: real)
    requires |inc| == DELAYS && x >= 0.0
    ensures ScanTime(waits, inc, rt, e[name := Num(x)])
            == ScanTime(waits, inc, rt, e[name := Num(0.0)]) + DpsTimer.Times(Uses(waits, name), x)
    ensures ScanTime(waits, inc, rt, e) >= 0.0
  {
    hide ScanTime, DpsTimer.Times;
    var n := Uses(waits, name);
    if waits == [] {
      NoScan(inc, rt, e[name := Num(x)]);
      NoScan(inc, rt, e[name := Num(0.0)]);
      NoScan(inc, rt, e);
      TimesNext(0, x);
    } else {
      ScanFirst(waits, inc, rt, e[name := Num(x)]);
      ScanFirst(waits, inc, rt, e[name := Num(0.0)]);
      ScanFirst(waits, inc, rt, e);
      WaitedOften(waits[1..], inc, rt, e, name, x);
      TimesNext(Uses(waits[1..], name), x);
    }
  }

  lemma NoScan(inc: seq<real>, rt: Vars, e: Env)
    requires |inc| == DELAYS
    ensures ScanTime([], inc, rt, e) == 0.0
  {
  }

  /** Levels whose delays are not negative, and are waited somewhere in the scan. */
  predicate Waited(ls: seq<Level>, waits: seq<Wait>) {
    forall i :: 0 <= i < |ls| && ls[i].Ni? ==> ls[i].first >= 0.0 && ls[i].step >= 0.0 && Uses(waits, ls[i].name) > 0
  }

  lemma LaterDelay(l: Level, k: nat)
    requires l.Ni? && l.first >= 0.0 && l.step >= 0.0
    ensures Delay(l, k) >= 0.0 && Delay(l, k + 1) == Delay(l, k) + l.step
  {
    TimesNext(k, l.step);
    assert k as real * l.step >= 0.0;
  }

  lemma OneMore(n: nat, x: real, s: real)
    ensures DpsTimer.Times(n, x + s) == DpsTimer.Times(n, x) + DpsTimer.Times(n, s)
  {
    assert n as real * (x + s) == n as real * x + n as real * s;
  }

  lemma WaitsStep(waits: seq<Wait>, inc: seq<real>, rt: Vars, e: Env, l: Level, k: nat)
    requires |inc| == DELAYS && l.Ni? && l.first >= 0.0 && l.step >= 0.0
    ensures StepAt(ScanLeaf(waits, inc, rt), e, l, k)
  {
    hide ScanTime, DpsTimer.Times, Delay;
    var n := Uses(waits, l.name);
    LaterDelay(l, k);
    LaterDelay(l, 0);
    LaterDelay(l, k + 1);
    LaterDelay(l, 1);
    WaitedOften(waits, inc, rt, e, l.name, Delay(l, k));
    WaitedOften(waits, inc, rt, e, l.name, Delay(l, k + 1));
    WaitedOften(waits, inc, rt, e, l.name, Delay(l, 0));
    WaitedOften(waits, inc, rt, e, l.name, Delay(l, 1));
    OneMore(n, Delay(l, k), l.step);
    OneMore(n, Delay(l, 0), l.step);
  }

  lemma WaitsGrow(waits: seq<Wait>, inc: seq<real>, rt: Vars, e: Env, l: Level)
    requires |inc| == DELAYS && l.Ni? && l.first >= 0.0 && l.step >= 0.0 && l.size > 0
    requires !Still(l) && Uses(waits, l.name) > 0
    ensures GrowsIn(ScanLeaf(waits, inc, rt), e, l)
  {
    hide ScanTime, DpsTimer.Times;
    var n, d := Uses(waits, l.name), Last(l) - l.first;
    assert l.size as real - 1.0 > 0.0 && d == (l.size as real - 1.0) * l.step > 0.0;
    WaitedOften(waits, inc, rt, e, l.name, l.first);
    WaitedOften(waits, inc, rt, e, l.name, Last(l));
    OneMore(n, l.first, d);
    More(n, d);
  }

  lemma More(n: nat, d: real)
    requires n > 0 && d > 0.0
    ensures DpsTimer.Times(n, d) > 0.0
  {
  }

  /** Such a time steps evenly with every delay, and grows: what the theorems on the estimate ask for. */
  lemma WaitsEvenly(ls: seq<Level>, waits: seq<Wait>, inc: seq<real>, rt: Vars)
    requires |inc| == DELAYS && Waited(ls, waits) && Filled(ls)
    ensures EvenLeaf(ls, ScanLeaf(waits, inc, rt)) && GrowingLeaf(ls, ScanLeaf(waits, inc, rt))
  {
    hide Possible, StepAt, GrowsIn, Still, Uses, ScanLeaf;
    forall e, i, k: nat | 0 <= i < |ls| && ls[i].Ni? && Possible(ls, e, {}) && k + 1 < ls[i].size
      ensures StepAt(ScanLeaf(waits, inc, rt), e, ls[i], k)
    {
      WaitsStep(waits, inc, rt, e, ls[i], k);
    }
    forall e, i | 0 <= i < |ls| && ls[i].Ni? && !Still(ls[i]) && Possible(ls, e, {})
      ensures GrowsIn(ScanLeaf(waits, inc, rt), e, ls[i])
    {
      WaitsGrow(waits, inc, rt, e, ls[i]);
    }
  }

  lemma NotBelow(a: real, b: real)
    requires a >= 0.0 && b >= 0.0
    ensures a * b >= 0.0
  {
  }

  /** The time is a straight line in one delay that is not negative, and gains a second for each second of it as
      often as it is waited. */
  lemma WaitedSlope(l: Level, waits: seq<Wait>, inc: seq<real>, rt: Vars, e: Env)
    requires |inc| == DELAYS && l.Ni? && l.first >= 0.0 && l.step >= 0.0
    ensures NiLevels([l]) && Forward(l) && Affine([l], ScanLeaf(waits, inc, rt), e)
    ensures Slope([l], ScanLeaf(waits, inc, rt), e) == Uses(waits, l.name) as real
  {
    hide ScanTime, Uses;
    var ls, leaf, n := [l], ScanLeaf(waits, inc, rt), Uses(waits, l.name);
    assert ls[1..] == [];
    if l.size > 0 { NotBelow(l.size as real - 1.0, l.step); }
    forall x: real | x >= 0.0 ensures Under(ls, leaf, e, x) == Under(ls, leaf, e, 0.0) + n as real * x {
      WaitedOften(waits, inc, rt, e, l.name, x);
    }
  }

  /** A sequence that waits its evolution delays: the estimate is never too short, and right if and only if
      every delay below another, or below an array of two or more values, has one value. */
  lemma WaitsExactlyWhen(ls: seq<Level>, waits: seq<Wait>, inc: seq<real>, rt: Vars, env: Env)
    requires |inc| == DELAYS && ValidLevels(ls) && Apart(ls) && AtFirst(ls, env) && Filled(ls) && Waited(ls, waits)
    ensures Cal(ls, ScanLeaf(waits, inc, rt), env).time >= Exact(ls, ScanLeaf(waits, inc, rt), env)
    ensures Cal(ls, ScanLeaf(waits, inc, rt), env).time == Exact(ls, ScanLeaf(waits, inc, rt), env)
            <==> Settled(ls, false)
  {
    hide Cal, Exact, Apart, AtFirst, Filled, Waited, EvenLeaf, GrowingLeaf, ScanLeaf, Settled;
    WaitsEvenly(ls, waits, inc, rt);
    GrowingExactlyWhen(ls, ScanLeaf(waits, inc, rt), env);
  }
}
