/** The node list of src/bpsg/xmath.c and one turn of simulate_dps_code's loop.  The levels
    0 .. loopLevel of the parallel arrays timers, loopRcnt, loopDo and loopStack are a stack of
    frames; the levels above are idle. */
module DpsNodes {
  const RTMAX := 87
  const MAXLEVEL := 16
  const TOTALCH := 12
  const DELAYS := 5

  datatype Arith = RAdd | RDbl | RHlv | RSub | RDecr | RDivn | RIncr | RMod2 | RMod4 | RModn | RMult | RAssign

  datatype Compare = RtLt | RtGt | RtGe | RtLe | RtEq | RtNe

  /** Numbers a, b, v, count, ctr and dst are indices of real-time variables. */
  datatype Node =
    | Timed(width: real)                          // DELAY, PULSE, ACQUIRE and the like
    | Rvop(op: Arith, a: int, b: int, c: int)
    | SetVal(v: int, x: real)
    | IncDly(v: int, slot: nat)
    | Sloop(count: int, ctr: int)
    | Hloop(count: int)
    | Msloop(count: int, ctr: int, x: real)       // also PELOOP and NWLOOP
    | Rlloop(n: int, count: int, ctr: int)
    | LoopEnd(ctr: int)                           // ENDHP has variable 0
    | IfZero(v: int)
    | IfRt(cmp: Compare, a: int, b: int, dst: int)
    | ElseNz
    | EndIf
    | ParallelStart(chan: int)
    | ParallelEnd
    | LastCode

  // ----- real-time variables --------------------------------------------------------------------------

  type Vars = s: seq<int> | |s| == RTMAX witness seq(RTMAX, _ => 0)

  function Get(rt: Vars, v: int): int {
    if v <= 0 || v >= RTMAX then 0 else rt[v]
  }

  /** (int)(x + 0.5), or (int)(x - 0.5) for x <= 0: to the nearest, halves away from zero. */
  function Nearest(x: real): int {
    if x > 0.0 then (x + 0.5).Floor else -((-x + 0.5).Floor)
  }

  function Set(rt: Vars, v: int, x: int): Vars {
    if 0 < v < RTMAX then rt[v := x] else rt
  }

  /** C division and remainder: toward zero. */
  function CDiv(a: int, b: int): int
    requires b != 0
  {
    if a >= 0 then a / b else -((-a) / b)
  }

  function CMod(a: int, b: int): int
    requires b != 0
  {
    a - b * CDiv(a, b)
  }

  /** A zero divisor counts as 1. */
  function Divisor(k: int): (d: int)
    ensures d != 0
  {
    if k == 0 then 1 else k
  }

  function ArithResult(op: Arith, x: int, y: int): int {
    match op
    case RAdd => x + y
    case RDbl => x * 2
    case RHlv => CDiv(x, 2)
    case RSub => x - y
    case RDecr => x - 1
    case RDivn => CDiv(x, Divisor(y))
    case RIncr => x + 1
    case RMod2 => CMod(x, 2)
    case RMod4 => CMod(x, 4)
    case RModn => CMod(x, Divisor(y))
    case RMult => x * y
    case RAssign => x
  }

  /** The variable an operation assigns. */
  function ArithTarget(op: Arith, a: int, b: int, c: int): int {
    match op
    case RAdd | RSub | RDivn | RModn | RMult => c
    case RDbl | RHlv | RMod2 | RMod4 | RAssign => b
    case RDecr | RIncr => a
  }

  /** RT_LE is coded as less than. */
  predicate Compared(cmp: Compare, x: int, y: int) {
    match cmp
    case RtLt => x < y
    case RtGt => x > y
    case RtGe => x >= y
    case RtLe => x < y
    case RtEq => x == y
    case RtNe => x != y
  }

  /** RT_LE is taken exactly where its name says, except at equality. */
  lemma LeMissesEquality(x: int, y: int)
    ensures Compared(RtLe, x, y) == (x <= y) <==> x != y
  {
  }

  // ----- the stack of levels ----------------------------------------------------------------------------

  datatype Frame = Frame(timer: real, rcnt: int, rerun: bool, start: int)

  datatype Sim = Sim(pc: nat, frames: seq<Frame>, rt: Vars, chan: int, times: seq<real>)

  const BASE_FRAME := Frame(0.0, 1, false, -1)

  function Scale(n: int, t: real): real {
    t * n as real
  }

  ghost predicate ValidSim(s: Sim) {
    1 <= |s.frames| <= MAXLEVEL && |s.times| == TOTALCH
  }

  function Top(s: Sim): Frame
    requires |s.frames| >= 1
  {
    s.frames[|s.frames| - 1]
  }

  function WithTop(s: Sim, f: Frame): Sim
    requires |s.frames| >= 1
  {
    s.(frames := s.frames[|s.frames| - 1 := f])
  }

  function AddTime(s: Sim, t: real): Sim
    requires |s.frames| >= 1
  {
    WithTop(s, Top(s).(timer := Top(s).timer + t))
  }

  /** set_dps_loop: nothing happens at the deepest level. */
  function PushLoop(s: Sim, v: int): (r: Sim)
    requires ValidSim(s)
    ensures ValidSim(r)
  {
    if |s.frames| >= MAXLEVEL then s
    else
      var n := Get(s.rt, v);
      s.(frames := s.frames + [Frame(0.0, if n < 1 then 1 else n, false, s.pc)])
  }

  /** Leaves the top level, handing its time to the level below (or to itself at level 0). */
  function PopLoop(s: Sim): (r: Sim)
    requires ValidSim(s)
    ensures ValidSim(r)
  {
    var top, k := Top(s), |s.frames| - 1;
    var t := Scale(if top.rcnt < 1 then 1 else top.rcnt, top.timer);
    if k == 0 then s.(frames := [top.(timer := t, rcnt := 1, rerun := false)])
    else AddTime(s.(frames := s.frames[..k]), t)
  }

  /** end_dps_loop and the step past the node it returns. */
  function EndLoop(s: Sim, v: int): (r: Sim)
    requires ValidSim(s)
    ensures ValidSim(r)
  {
    var top := Top(s);
    if top.rerun && top.rcnt > 1 then
      var again := WithTop(s, top.(rcnt := top.rcnt - 1));
      again.(rt := Set(s.rt, v, top.rcnt - 1), pc := if top.start >= 0 then top.start + 1 else s.pc + 1)
    else PopLoop(s).(pc := s.pc + 1)
  }

  /** set_parallel_time: closes the channel that is open, if any. */
  function CloseChannel(s: Sim): (r: Sim)
    requires ValidSim(s)
    ensures ValidSim(r)
  {
    var k := |s.frames| - 1;
    if s.chan <= 0 || s.chan >= TOTALCH || k < 1 then s
    else s.(times := s.times[s.chan := Top(s).timer], frames := s.frames[..k])
  }

  function StartParallel(s: Sim, chan: int): (r: Sim)
    requires ValidSim(s)
    ensures ValidSim(r)
  {
    var closed := CloseChannel(s);
    if chan >= TOTALCH || chan < 0 then closed.(chan := 0)
    else PushLoop(closed.(chan := chan), 0)
  }

  function Longest(times: seq<real>, n: nat): real
    requires n <= |times|
  {
    if n <= 1 then 0.0
    else
      var t := Longest(times, n - 1);
      if times[n - 1] > t then times[n - 1] else t
  }

  function NoTimes(times: seq<real>): (r: seq<real>)
    requires |times| == TOTALCH
    ensures |r| == TOTALCH
  {
    [times[0]] + seq(TOTALCH - 1, _ => 0.0)
  }

  function EndParallel(s: Sim): (r: Sim)
    requires ValidSim(s)
    ensures ValidSim(r)
  {
    var closed := CloseChannel(s);
    AddTime(closed, Longest(closed.times, TOTALCH)).(times := NoTimes(closed.times), chan := 0)
  }

  // ----- skipping branches ------------------------------------------------------------------------------

  /** dps_if_stmt's search from node i on: the ELSENZ (when wanted) or ENDIF at nesting level 0,
      or the last node. */
  function Skip(nodes: seq<Node>, i: nat, level: nat, wantElse: bool): (r: nat)
    ensures 0 < |nodes| && i <= |nodes| ==> i <= r + 1
    decreases |nodes| - i
  {
    if i >= |nodes| then if nodes == [] then 0 else |nodes| - 1
    else
      match nodes[i]
      case IfZero(_) => Skip(nodes, i + 1, level + 1, wantElse)
      case IfRt(_, _, _, _) => Skip(nodes, i + 1, level + 1, wantElse)
      case ElseNz => if wantElse && level == 0 then i else Skip(nodes, i + 1, level, wantElse)
      case EndIf => if level == 0 then i else Skip(nodes, i + 1, level - 1, wantElse)
      case _ => Skip(nodes, i + 1, level, wantElse)
  }

  function IfVal(cmp: Compare, x: int, y: int): int {
    if Compared(cmp, x, y) then 1 else 0
  }

  // ----- one turn ---------------------------------------------------------------------------------------

  predicate Active(nodes: seq<Node>, s: Sim) {
    s.pc < |nodes| && !nodes[s.pc].LastCode?
  }

  /** incDelays is what INITDLY left, as the simulator sees it. */
  function Turn(nodes: seq<Node>, inc: seq<real>, s: Sim): (r: Sim)
    requires ValidSim(s) && Active(nodes, s) && |inc| == DELAYS
    ensures ValidSim(r)
  {
    var next := s.(pc := s.pc + 1);
    match nodes[s.pc]
    case Timed(width) => if width > 0.0 then AddTime(next, width) else next
    case Rvop(op, a, b, c) =>
      next.(rt := Set(s.rt, ArithTarget(op, a, b, c), ArithResult(op, Get(s.rt, a), Get(s.rt, b))))
    case SetVal(v, x) => next.(rt := Set(s.rt, v, Nearest(x)))
    case IncDly(v, slot) =>
      if slot >= DELAYS then next
      else
        var timed := AddTime(next, Scale(Get(s.rt, v), inc[slot]));
        WithTop(timed, Top(timed).(rerun := true))
    case Sloop(count, ctr) =>
      var pushed := PushLoop(s, count);
      pushed.(rt := Set(s.rt, ctr, Top(pushed).rcnt), pc := s.pc + 1)
    case Hloop(count) => PushLoop(s, count).(pc := s.pc + 1)
    case Msloop(count, ctr, x) =>
      PushLoop(s.(rt := Set(Set(s.rt, count, Nearest(x)), ctr, Nearest(x))), count).(pc := s.pc + 1)
    case Rlloop(n, count, ctr) =>
      var pushed := PushLoop(s.(rt := Set(s.rt, count, n)), count);
      pushed.(rt := Set(pushed.rt, ctr, Top(pushed).rcnt), pc := s.pc + 1)
    case LoopEnd(ctr) => EndLoop(s, ctr)
    case IfZero(v) => if Get(s.rt, v) == 0 then next else s.(pc := Skip(nodes, s.pc + 1, 0, true) + 1)
    case IfRt(cmp, a, b, dst) =>
      var val := IfVal(cmp, Get(s.rt, a), Get(s.rt, b));
      s.(rt := Set(s.rt, dst, val), pc := if val != 0 then s.pc + 1 else Skip(nodes, s.pc + 1, 0, true) + 1)
    case ElseNz => s.(pc := Skip(nodes, s.pc + 1, 0, false) + 1)
    case EndIf => next
    case ParallelStart(chan) => StartParallel(s, chan).(pc := s.pc + 1)
    case ParallelEnd => EndParallel(s).(pc := s.pc + 1)
  }

  /** The state after n turns. */
  function Turns(nodes: seq<Node>, inc: seq<real>, s: Sim, n: nat): (r: Sim)
    requires ValidSim(s) && |inc| == DELAYS
    ensures ValidSim(r)
    decreases n
  {
    if n == 0 || !Active(nodes, s) then s else Turns(nodes, inc, Turn(nodes, inc, s), n - 1)
  }

  lemma {:induction false} TurnsSplit(nodes: seq<Node>, inc: seq<real>, s: Sim, a: nat, b: nat)
    requires ValidSim(s) && |inc| == DELAYS
    ensures Turns(nodes, inc, s, a + b) == Turns(nodes, inc, Turns(nodes, inc, s, a), b)
    decreases a
  {
    hide Turn, ValidSim;
    if a > 0 && Active(nodes, s) {
      TurnsSplit(nodes, inc, Turn(nodes, inc, s), a - 1, b);
    }
  }
}
