/** simulate_dps_code and its helpers over the static arrays they update. */
module DpsSimulator {
  import opened DpsNodes
  import opened DpsDivision
  import opened DpsBlocks
  import opened DpsTermination
  import opened DpsRun

  class Simulator {
    const nodes: seq<Node>
    const timers: array<real>
    const loopRcnt: array<int>
    const loopDo: array<bool>
    const loopStack: array<int>
    const rtval: array<int>
    const incDelays: array<real>
    const parallelTimes: array<real>
    var loopLevel: nat
    var parallelChan: int

    ghost predicate Shape() {
      && timers.Length == MAXLEVEL && loopRcnt.Length == MAXLEVEL && loopDo.Length == MAXLEVEL
      && loopStack.Length == MAXLEVEL && rtval.Length == RTMAX && incDelays.Length == DELAYS
      && parallelTimes.Length == TOTALCH
      && timers != incDelays && timers != parallelTimes && incDelays != parallelTimes
      && loopRcnt != loopStack && loopRcnt != rtval && loopStack != rtval
    }

    /** The levels above loopLevel have no time and ask for nothing. */
    ghost predicate Valid()
      reads this, timers, loopDo
    {
      && Shape() && loopLevel < MAXLEVEL
      && forall k :: loopLevel < k < MAXLEVEL ==> timers[k] == 0.0 && !loopDo[k]
    }

    ghost function Level(k: nat): Frame
      requires Shape() && k < MAXLEVEL
      reads timers, loopRcnt, loopDo, loopStack
    {
      Frame(timers[k], loopRcnt[k], loopDo[k], loopStack[k])
    }

    /** The state at node pc. */
    ghost function View(pc: nat): (s: Sim)
      requires Valid()
      reads this, timers, loopRcnt, loopDo, loopStack, rtval, parallelTimes
      ensures ValidSim(s)
    {
      Sim(pc, seq(loopLevel + 1, k requires 0 <= k < MAXLEVEL && Shape()
                                 reads this, timers, loopRcnt, loopDo, loopStack
                                 => Level(k)),
          rtval[..], parallelChan, parallelTimes[..])
    }

    constructor (list: seq<Node>)
      ensures Valid() && nodes == list
      ensures fresh(timers) && fresh(loopRcnt) && fresh(loopDo) && fresh(loopStack) && fresh(rtval)
      ensures fresh(incDelays) && fresh(parallelTimes)
    {
      nodes := list;
      timers := new real[MAXLEVEL](_ => 0.0);
      loopRcnt := new int[MAXLEVEL](_ => 1);
      loopDo := new bool[MAXLEVEL](_ => false);
      loopStack := new int[MAXLEVEL](_ => -1);
      rtval := new int[RTMAX](_ => 0);
      incDelays := new real[DELAYS](_ => 0.0);
      parallelTimes := new real[TOTALCH](_ => 0.0);
      loopLevel := 0;
      parallelChan := 0;
    }

    function GetRTval(v: int): (x: int)
      requires rtval.Length == RTMAX
      reads rtval
      ensures x == Get(rtval[..], v) == if 0 < v < 87 then rtval[v] else 0
    {
      if v <= 0 || v >= RTMAX then 0 else rtval[v]
    }

    method SetRTval(v: int, fval: real)
      requires Valid()
      modifies rtval
      ensures rtval[..] == Set(old(rtval[..]), v, Nearest(fval))
      ensures forall pc: nat :: View(pc) == old(View(pc)).(rt := rtval[..])
      ensures forall j :: 0 <= j < 87 && j != v ==> rtval[j] == old(rtval[j])
      ensures 0 < v < 87 ==>
                var r := rtval[v] as real;
                if fval > 0.0 then r <= fval + 0.5 < r + 1.0 else r - 1.0 < fval - 0.5 <= r
    {
      if 0 < v < RTMAX {
        var value := if fval > 0.0 then fval + 0.5 else fval - 0.5;
        rtval[v] := if value > 0.0 then value.Floor else -((-value).Floor);
      }
    }

    method SetDpsLoop(i: nat, vindex: int)
      requires Valid()
      modifies this`loopLevel, timers, loopRcnt, loopDo, loopStack
      ensures Valid() && View(i) == PushLoop(old(View(i)), vindex)
      ensures old(loopLevel) == 15 ==> loopLevel == 15 && Level(15) == old(Level(15))
      ensures old(loopLevel) < 15 ==>
                var n := GetRTval(vindex);
                loopLevel == old(loopLevel) + 1 && Level(loopLevel) == Frame(0.0, if n < 1 then 1 else n, false, i)
      ensures forall k :: 0 <= k <= old(loopLevel) ==> Level(k) == old(Level(k))
    {
      if loopLevel >= MAXLEVEL - 1 {
        return;
      }
      loopLevel := loopLevel + 1;
      timers[loopLevel] := 0.0;
      loopRcnt[loopLevel] := GetRTval(vindex);
      if loopRcnt[loopLevel] < 1 {
        loopRcnt[loopLevel] := 1;
      }
      loopDo[loopLevel] := false;
      loopStack[loopLevel] := i;
    }

    /** Takes the time of the current level, and of the idle ones above. */
    method Drain() returns (ftime: real)
      requires Valid()
      modifies timers, loopDo
      ensures Valid() && ftime == old(timers[loopLevel])
      ensures timers[..] == old(timers[..])[loopLevel := 0.0]
      ensures loopDo[..] == old(loopDo[..])[loopLevel := false]
    {
      ftime := 0.0;
      for k := loopLevel to MAXLEVEL
        invariant ftime == if k == loopLevel then 0.0 else old(timers[loopLevel])
        invariant forall j :: loopLevel <= j < k ==> timers[j] == 0.0 && !loopDo[j]
        invariant forall j :: 0 <= j < MAXLEVEL && !(loopLevel <= j < k) ==>
          timers[j] == old(timers[j]) && loopDo[j] == old(loopDo[j])
      {
        ftime := ftime + timers[k];
        timers[k] := 0.0;
        loopDo[k] := false;
      }
    }

    /** One pass fewer to go. */
    method Again(ghost i: nat, vindex: int)
      requires Valid() && loopDo[loopLevel] && loopRcnt[loopLevel] > 1
      modifies loopRcnt, rtval
      ensures Valid() && loopStack[loopLevel] == old(loopStack[loopLevel])
      ensures View(i) == OnePassFewer(old(View(i)), vindex)
      ensures loopRcnt[loopLevel] == old(loopRcnt[loopLevel]) - 1
      ensures 0 < vindex < 87 ==> rtval[vindex] == old(loopRcnt[loopLevel]) - 1
    {
      loopRcnt[loopLevel] := loopRcnt[loopLevel] - 1;
      SetRTval(vindex, loopRcnt[loopLevel] as real);
      NearestOfInt(loopRcnt[loopLevel]);
    }

    /** The time of the level's passes; the level is left with no time and a count of 1. */
    method TakeTime() returns (ftime: real)
      requires Valid()
      modifies timers, loopRcnt, loopDo
      ensures Valid()
      ensures var n := if old(loopRcnt[loopLevel]) < 1 then 1 else old(loopRcnt[loopLevel]);
              ftime == Scale(n, old(timers[loopLevel])) == old(timers[loopLevel]) * n as real
      ensures timers[..] == old(timers[..])[loopLevel := 0.0]
      ensures loopRcnt[..] == old(loopRcnt[..])[loopLevel := 1]
      ensures loopDo[..] == old(loopDo[..])[loopLevel := false]
    {
      ghost var counts := loopRcnt[..];
      ftime := Drain();
      if loopRcnt[loopLevel] < 1 {
        loopRcnt[loopLevel] := 1;
      }
      ftime := Scale(loopRcnt[loopLevel], ftime);
      loopRcnt[loopLevel] := 1;
      assert loopRcnt[..] == counts[loopLevel := 1];
    }

    method Leave(ghost i: nat)
      requires Valid()
      modifies this`loopLevel, timers, loopRcnt, loopDo
      ensures Valid() && View(i) == PopLoop(old(View(i)))
      ensures loopLevel == (if old(loopLevel) == 0 then 0 else old(loopLevel) - 1)
      ensures var n, t := if old(loopRcnt[loopLevel]) < 1 then 1 else old(loopRcnt[loopLevel]), old(timers[loopLevel]);
              timers[loopLevel] == (if old(loopLevel) == 0 then 0.0 else old(timers[loopLevel - 1])) + t * n as real
    {
      hide Scale;
      ghost var was := View(i);
      var ftime := TakeTime();
      if loopLevel > 0 {
        loopLevel := loopLevel - 1;
      }
      timers[loopLevel] := timers[loopLevel] + ftime;
      forall k | 0 <= k <= loopLevel ensures Level(k) == PopLoop(was).frames[k] {
        if k < loopLevel { assert Level(k) == was.frames[k]; }
      }
      assert View(i).frames == PopLoop(was).frames;
    }

    /** Returns the node after which the run goes on. */
    method EndDpsLoop(i: nat, vindex: int) returns (next: nat)
      requires Valid()
      modifies this`loopLevel, timers, loopRcnt, loopDo, rtval
      ensures Valid() && View(next + 1) == EndLoop(old(View(i)), vindex)
      ensures old(loopDo[loopLevel]) && old(loopRcnt[loopLevel]) > 1 ==>
                && loopLevel == old(loopLevel) && timers[loopLevel] == old(timers[loopLevel])
                && loopRcnt[loopLevel] == old(loopRcnt[loopLevel]) - 1
                && (0 < vindex < 87 ==> rtval[vindex] == old(loopRcnt[loopLevel]) - 1)
                && next == if old(loopStack[loopLevel]) >= 0 then old(loopStack[loopLevel]) else i
      ensures !old(loopDo[loopLevel]) || old(loopRcnt[loopLevel]) <= 1 ==>
                var n := if old(loopRcnt[loopLevel]) < 1 then 1 else old(loopRcnt[loopLevel]);
                && next == i && rtval[..] == old(rtval[..])
                && loopLevel == (if old(loopLevel) == 0 then 0 else old(loopLevel) - 1)
                && timers[loopLevel] == (if old(loopLevel) == 0 then 0.0 else old(timers[loopLevel - 1]))
                                        + old(timers[loopLevel]) * n as real
    {
      hide PopLoop, Set;
      next := i;
      if loopDo[loopLevel] && loopRcnt[loopLevel] > 1 {
        Again(i, vindex);
        if loopStack[loopLevel] >= 0 {
          next := loopStack[loopLevel];
        }
      } else {
        Leave(i);
      }
    }

    method SetParallelTime(ghost pc: nat)
      requires Valid() && parallelChan < TOTALCH
      modifies this`loopLevel, timers, loopDo, parallelTimes
      ensures Valid() && View(pc) == CloseChannel(old(View(pc)))
      ensures parallelChan <= 0 || old(loopLevel) == 0 ==>
                loopLevel == old(loopLevel) && timers[loopLevel] == old(timers[loopLevel])
                && parallelTimes[..] == old(parallelTimes[..])
      ensures parallelChan > 0 && old(loopLevel) > 0 ==>
                && loopLevel == old(loopLevel) - 1 && timers[loopLevel] == old(timers[loopLevel - 1])
                && parallelTimes[parallelChan] == old(timers[loopLevel])
                && forall c :: 0 <= c < 12 && c != parallelChan ==> parallelTimes[c] == old(parallelTimes[c])
    {
      if parallelChan <= 0 || loopLevel < 1 {
        return;
      }
      var ftime := Drain();
      parallelTimes[parallelChan] := ftime;
      loopLevel := loopLevel - 1;
    }

    method StartParallelTime(i: nat, chan: int)
      requires Valid() && parallelChan < TOTALCH
      modifies this, timers, loopRcnt, loopDo, loopStack, parallelTimes
      ensures Valid() && parallelChan < TOTALCH && View(i) == StartParallel(old(View(i)), chan)
      ensures parallelChan == if 0 <= chan < 12 then chan else 0
      ensures var closed := old(loopLevel) - if old(parallelChan) > 0 && old(loopLevel) > 0 then 1 else 0;
              loopLevel == if 0 <= chan < 12 && closed < 15 then closed + 1 else closed
      ensures old(parallelChan) > 0 && old(loopLevel) > 0 ==> parallelTimes[old(parallelChan)] == old(timers[loopLevel])
      ensures 0 <= chan < 12 && (old(loopLevel) < 15 || old(parallelChan) > 0) ==>
                Level(loopLevel) == Frame(0.0, 1, false, i)
    {
      hide CloseChannel;
      SetParallelTime(i);
      ghost var closed := View(i);
      parallelChan := chan;
      assert View(i) == closed.(chan := chan);
      if parallelChan >= TOTALCH || parallelChan < 0 {
        parallelChan := 0;
        return;
      }
      SetDpsLoop(i, 0);
    }

    method TakeLongest() returns (t: real)
      requires Valid()
      modifies parallelTimes
      ensures t == Longest(old(parallelTimes[..]), TOTALCH)
      ensures t >= 0.0 && forall c :: 1 <= c < 12 ==> old(parallelTimes[..])[c] <= t
      ensures t == 0.0 || exists c :: 1 <= c < 12 && old(parallelTimes[..])[c] == t
      ensures parallelTimes[..] == NoTimes(old(parallelTimes[..]))
      ensures forall c :: 1 <= c < 12 ==> parallelTimes[c] == 0.0
    {
      ghost var times := parallelTimes[..];
      t := 0.0;
      for k := 1 to TOTALCH
        invariant t == Longest(times, k) >= 0.0 && forall c :: 1 <= c < k ==> times[c] <= t
        invariant t == 0.0 || exists c :: 1 <= c < k && times[c] == t
        invariant forall j :: 0 <= j < TOTALCH ==> parallelTimes[j] == if 1 <= j < k then 0.0 else times[j]
      {
        if parallelTimes[k] > t {
          t := parallelTimes[k];
        }
        parallelTimes[k] := 0.0;
      }
    }

    /** Closes the channel that is open, and takes the longest time of all. */
    method CloseAll(ghost pc: nat) returns (t: real)
      requires Valid() && parallelChan < TOTALCH
      modifies this, timers, loopDo, parallelTimes
      ensures Valid() && parallelChan == old(parallelChan)
      ensures var closed := CloseChannel(old(View(pc)));
              View(pc) == closed.(times := NoTimes(closed.times)) && t == Longest(closed.times, TOTALCH)
      ensures var open := old(parallelChan) > 0 && old(loopLevel) > 0;
              var level := if open then old(loopLevel) - 1 else old(loopLevel);
              var times := if open then old(parallelTimes[..])[old(parallelChan) := old(timers[loopLevel])]
                           else old(parallelTimes[..]);
              && loopLevel == level && timers[loopLevel] == old(timers[level])
              && t >= 0.0 && (forall c :: 1 <= c < 12 ==> times[c] <= t)
              && (t == 0.0 || exists c :: 1 <= c < 12 && times[c] == t)
      ensures forall c :: 1 <= c < 12 ==> parallelTimes[c] == 0.0
    {
      hide CloseChannel, Longest, NoTimes;
      ghost var open := parallelChan > 0 && loopLevel > 0;
      ghost var times := if open then parallelTimes[..][parallelChan := timers[loopLevel]] else parallelTimes[..];
      SetParallelTime(pc);
      assert parallelTimes[..] == times;
      t := TakeLongest();
    }

    method EndParallelTime(ghost pc: nat)
      requires Valid() && parallelChan < TOTALCH
      modifies this, timers, loopDo, parallelTimes
      ensures Valid() && parallelChan == 0 && View(pc) == EndParallel(old(View(pc)))
      ensures var open := old(parallelChan) > 0 && old(loopLevel) > 0;
              var level := if open then old(loopLevel) - 1 else old(loopLevel);
              var times := if open then old(parallelTimes[..])[old(parallelChan) := old(timers[loopLevel])]
                           else old(parallelTimes[..]);
              var t := timers[loopLevel] - old(timers[level]);
              && loopLevel == level
              && t >= 0.0 && (forall c :: 1 <= c < 12 ==> times[c] <= t)
              && (t == 0.0 || exists c :: 1 <= c < 12 && times[c] == t)
      ensures forall c :: 1 <= c < 12 ==> parallelTimes[c] == 0.0
    {
      hide CloseChannel, Longest, NoTimes;
      var t := CloseAll(pc);
      timers[loopLevel] := timers[loopLevel] + t;
      parallelChan := 0;
    }

    /** What an operation computes, and the variable it is for. */
    method Computed(op: Arith, v1: int, v2: int, v3: int) returns (data: int, dv: int)
      requires Valid()
      ensures data == ArithResult(op, GetRTval(v1), GetRTval(v2)) && dv == ArithTarget(op, v1, v2, v3)
    {
      hide CDiv, CMod;
      match op {
        case RAdd => return GetRTval(v1) + GetRTval(v2), v3;
        case RDbl => return GetRTval(v1) * 2, v2;
        case RHlv => return CDiv(GetRTval(v1), 2), v2;
        case RSub => return GetRTval(v1) - GetRTval(v2), v3;
        case RDecr => return GetRTval(v1) - 1, v1;
        case RDivn =>
          var k := GetRTval(v2);
          if k == 0 {
            k := 1;
          }
          return CDiv(GetRTval(v1), k), v3;
        case RIncr => return GetRTval(v1) + 1, v1;
        case RMod2 => return CMod(GetRTval(v1), 2), v2;
        case RMod4 => return CMod(GetRTval(v1), 4), v2;
        case RModn =>
          var k := GetRTval(v2);
          if k == 0 {
            k := 1;
          }
          return CMod(GetRTval(v1), k), v3;
        case RMult => return GetRTval(v1) * GetRTval(v2), v3;
        case RAssign => return GetRTval(v1), v2;
      }
    }

    /** One variable is assigned, from the values the operands had; a quotient and a remainder are cut
        off toward zero. */
    method RtValCmd(op: Arith, v1: int, v2: int, v3: int)
      requires Valid()
      modifies rtval
      ensures rtval[..] == Set(old(rtval[..]), ArithTarget(op, v1, v2, v3),
                               ArithResult(op, old(GetRTval(v1)), old(GetRTval(v2))))
      ensures forall v :: v != ArithTarget(op, v1, v2, v3) ==> GetRTval(v) == old(GetRTval(v))
      ensures op == RDivn && 0 < v3 < RTMAX ==> QuotientOf(old(GetRTval(v1)), Divisor(old(GetRTval(v2))), GetRTval(v3))
      ensures op == RModn && 0 < v3 < RTMAX ==> RemainderOf(old(GetRTval(v1)), Divisor(old(GetRTval(v2))), GetRTval(v3))
      ensures var dv :=
                match op
                case RAdd | RSub | RMult | RDivn | RModn => v3
                case RIncr | RDecr => v1
                case _ => v2;
              && (forall v :: 0 <= v < 87 && v != dv ==> rtval[v] == old(rtval[v]))
              && (0 < dv < 87 ==>
                    var x, y, r := old(GetRTval(v1)), old(GetRTval(v2)), rtval[dv];
                    var d := if y == 0 then 1 else y;
                    match op
                    case RAdd => r == x + y
                    case RSub => r == x - y
                    case RMult => r == x * y
                    case RIncr => r == x + 1
                    case RDecr => r == x - 1
                    case RDbl => r == x + x
                    case RAssign => r == x
                    case RHlv => if x >= 0 then 0 <= x - (r + r) < 2 else -2 < x - (r + r) <= 0
                    case RMod2 => (x - r) % 2 == 0 && if x >= 0 then 0 <= r < 2 else -2 < r <= 0
                    case RMod4 => (x - r) % 4 == 0 && if x >= 0 then 0 <= r < 4 else -4 < r <= 0
                    case RDivn =>
                      var rest := x - d * r;
                      (if d > 0 then -d < rest < d else d < rest < -d) && (if x >= 0 then rest >= 0 else rest <= 0)
                    case RModn =>
                      && (exists q :: Product(d, q) == x - r) && (if d > 0 then -d < r < d else d < r < -d)
                      && if x >= 0 then r >= 0 else r <= 0)
    {
      hide CDiv, CMod, Nearest, QuotientOf, RemainderOf, ArithResult, Product;
      ArithIs(op, GetRTval(v1), GetRTval(v2));
      QuotientAndRemainder(GetRTval(v1), GetRTval(v2));
      var data, dv := Computed(op, v1, v2, v3);
      NearestOfInt(data);
      SetRTval(dv, data as real);
    }

    /** The search for the other branch, from the node after i. */
    method FindBranch(i: nat, ifstmt: bool) returns (r: nat)
      requires i < |nodes|
      ensures r == Skip(nodes, i + 1, 0, ifstmt)
    {
      var level := 0;
      r := i;
      while r + 1 < |nodes|
        invariant i <= r < |nodes| && level >= 0
        invariant Skip(nodes, i + 1, 0, ifstmt) == Skip(nodes, r + 1, level, ifstmt)
      {
        r := r + 1;
        match nodes[r]
        case IfZero(_) => level := level + 1;
        case IfRt(_, _, _, _) => level := level + 1;
        case ElseNz =>
          if ifstmt && level == 0 {
            return;
          }
        case EndIf =>
          if level == 0 {
            return;
          }
          level := level - 1;
        case _ =>
      }
    }

    /** Returns the node after which the run goes on. */
    method DpsIfStmt(i: nat) returns (r: nat)
      requires Valid() && i < |nodes| && (TestNode(nodes[i]) || nodes[i].ElseNz?)
      modifies rtval
      ensures Valid() && View(r + 1) == Branched(nodes, old(View(i)))
      ensures nodes[i].IfZero? ==> r == if GetRTval(nodes[i].v) == 0 then i else Skip(nodes, i + 1, 0, true)
      ensures nodes[i].ElseNz? ==> r == Skip(nodes, i + 1, 0, false)
      ensures nodes[i].IfRt? ==>
                var x, y := old(GetRTval(nodes[i].a)), old(GetRTval(nodes[i].b));
                var taken :=
                  match nodes[i].cmp
                  case RtLt => x < y
                  case RtGt => x > y
                  case RtGe => x >= y
                  case RtLe => x < y
                  case RtEq => x == y
                  case RtNe => x != y;
                && r == (if taken then i else Skip(nodes, i + 1, 0, true))
                && (0 < nodes[i].dst < 87 ==> rtval[nodes[i].dst] == if taken then 1 else 0)
    {
      hide Skip;
      match nodes[i]
      case IfZero(v) =>
        if GetRTval(v) == 0 {
          return i;
        }
        r := FindBranch(i, true);
      case IfRt(cmp, a, b, dst) =>
        var val := IfVal(cmp, GetRTval(a), GetRTval(b));
        NearestOfInt(val);
        SetRTval(dst, val as real);
        if val != 0 {
          return i;
        }
        r := FindBranch(i, true);
      case ElseNz =>
        r := FindBranch(i, false);
    }
  
    /** The nodes that touch only the time of the level and the variables. */
    method LeafNodeTurn(i: nat)
      requires Valid() && i < |nodes| && LeafNode(nodes[i])
      modifies timers, loopDo, rtval
      ensures Valid() && View(i + 1) == Turn(nodes, incDelays[..], old(View(i)))
      ensures timers[loopLevel] == old(timers[loopLevel])
                + match nodes[i]
                  case Timed(width) => (if width > 0.0 then width else 0.0)
                  case IncDly(v, slot) => (if slot < 5 then incDelays[slot] * old(GetRTval(v)) as real else 0.0)
                  case _ => 0.0
      ensures loopDo[loopLevel] == (old(loopDo[loopLevel]) || (nodes[i].IncDly? && nodes[i].slot < 5))
      ensures nodes[i].SetVal? && 0 < nodes[i].v < 87 ==>
                var r, x := rtval[nodes[i].v] as real, nodes[i].x;
                if x > 0.0 then r <= x + 0.5 < r + 1.0 else r - 1.0 < x - 0.5 <= r
    {
      hide Scale, Set, ArithResult, Nearest;
      match nodes[i]
      case Timed(width) =>
        if width > 0.0 {
          timers[loopLevel] := timers[loopLevel] + width;
        }
      case Rvop(op, a, b, c) => RtValCmd(op, a, b, c);
      case SetVal(v, x) => SetRTval(v, x);
      case IncDly(v, slot) =>
        if slot < DELAYS {
          ScaleIs(GetRTval(v), incDelays[slot]);
          timers[loopLevel] := timers[loopLevel] + Scale(GetRTval(v), incDelays[slot]);
          loopDo[loopLevel] := true;
        }
    }

    /** LOOP: the count is a variable, and the counter begins with it. */
    method EnterSloop(i: nat, count: int, ctr: int)
      requires Valid()
      modifies this`loopLevel, timers, loopRcnt, loopDo, loopStack, rtval
      ensures Valid() && View(i) == Started(old(View(i)), Sloop(count, ctr))
      ensures old(loopLevel) < 15 ==>
                var n := old(GetRTval(count));
                loopLevel == old(loopLevel) + 1 && Level(loopLevel) == Frame(0.0, if n < 1 then 1 else n, false, i)
      ensures 0 < ctr < 87 ==> rtval[ctr] == loopRcnt[loopLevel]
    {
      hide Set, Nearest, PushLoop;
      SetDpsLoop(i, count);
      NearestOfInt(loopRcnt[loopLevel]);
      assert loopRcnt[loopLevel] == Top(View(i)).rcnt;
      SetRTval(ctr, loopRcnt[loopLevel] as real);
    }

    /** MSLOOP: a number goes into the count and the counter. */
    method EnterMsloop(i: nat, count: int, ctr: int, x: real)
      requires Valid()
      modifies this`loopLevel, timers, loopRcnt, loopDo, loopStack, rtval
      ensures Valid() && View(i) == Started(old(View(i)), Msloop(count, ctr, x))
      ensures 0 < count < 87 ==>
                var n := rtval[count];
                && (if x > 0.0 then n as real <= x + 0.5 < n as real + 1.0 else n as real - 1.0 < x - 0.5 <= n as real)
                && (0 < ctr < 87 ==> rtval[ctr] == n)
                && (old(loopLevel) < 15 ==>
                      && loopLevel == old(loopLevel) + 1
                      && Level(loopLevel) == Frame(0.0, if n < 1 then 1 else n, false, i))
    {
      hide Set, Nearest, PushLoop;
      SetRTval(count, x);
      SetRTval(ctr, x);
      SetDpsLoop(i, count);
    }

    /** RLLOOP: likewise with a whole number. */
    method EnterRlloop(i: nat, n: int, count: int, ctr: int)
      requires Valid()
      modifies this`loopLevel, timers, loopRcnt, loopDo, loopStack, rtval
      ensures Valid() && View(i) == Started(old(View(i)), Rlloop(n, count, ctr))
      ensures 0 < count < 87 && old(loopLevel) < 15 ==>
                loopLevel == old(loopLevel) + 1 && Level(loopLevel) == Frame(0.0, if n < 1 then 1 else n, false, i)
      ensures 0 < ctr < 87 ==> rtval[ctr] == loopRcnt[loopLevel]
    {
      hide Set, Nearest, PushLoop;
      NearestOfInt(n);
      SetRTval(count, n as real);
      SetDpsLoop(i, count);
      NearestOfInt(loopRcnt[loopLevel]);
      assert loopRcnt[loopLevel] == Top(View(i)).rcnt;
      SetRTval(ctr, loopRcnt[loopLevel] as real);
    }

    method LoopNodeTurn(i: nat)
      requires Valid() && i < |nodes| && LoopStart(nodes[i])
      modifies this`loopLevel, timers, loopRcnt, loopDo, loopStack, rtval
      ensures Valid() && View(i) == Started(old(View(i)), nodes[i])
      ensures nodes[i].Hloop? && old(loopLevel) < 15 ==>
                var n := old(GetRTval(nodes[i].count));
                loopLevel == old(loopLevel) + 1 && Level(loopLevel) == Frame(0.0, if n < 1 then 1 else n, false, i)
    {
      hide Set, Nearest, PushLoop;
      match nodes[i]
      case Sloop(count, ctr) => EnterSloop(i, count, ctr);
      case Hloop(count) => SetDpsLoop(i, count);
      case Msloop(count, ctr, x) => EnterMsloop(i, count, ctr, x);
      case Rlloop(n, count, ctr) => EnterRlloop(i, n, count, ctr);
    }

    /** One pass of the switch; returns the node after which the run goes on. */
    method NodeTurn(i: nat) returns (r: nat)
      requires Valid() && parallelChan < TOTALCH && i < |nodes| && !nodes[i].LastCode?
      modifies this, timers, loopRcnt, loopDo, loopStack, rtval, parallelTimes
      ensures Valid() && parallelChan < TOTALCH
      ensures View(r + 1) == Turn(nodes, incDelays[..], old(View(i)))
    {
      hide Set, Nearest, PushLoop, EndLoop, StartParallel, EndParallel, Skip, Scale, ArithResult;
      r := i;
      if LeafNode(nodes[i]) {
        LeafNodeTurn(i);
      } else if LoopStart(nodes[i]) {
        StartedTurn(nodes, incDelays[..], View(i));
        LoopNodeTurn(i);
      } else if nodes[i].LoopEnd? {
        r := EndDpsLoop(i, nodes[i].ctr);
      } else if nodes[i].ParallelStart? {
        StartParallelTime(i, nodes[i].chan);
      } else if nodes[i].ParallelEnd? {
        EndParallelTime(i);
      } else if !nodes[i].EndIf? {
        r := DpsIfStmt(i);
      }
    }

    method ResetLevels()
      requires Shape()
      modifies this, timers, loopRcnt, loopDo, loopStack
      ensures Valid() && loopLevel == 0 && parallelChan == 0 && Level(0) == Frame(0.0, 1, false, -1)
    {
      loopLevel := 0;
      for k := 0 to MAXLEVEL
        modifies timers, loopRcnt, loopStack, loopDo
        invariant forall j :: 0 <= j < k ==> timers[j] == 0.0 && loopRcnt[j] == 1 && !loopDo[j]
        invariant k > 0 ==> loopStack[0] == -1
      {
        timers[k] := 0.0;
        loopRcnt[k] := 1;
        loopStack[loopLevel] := -1;
        loopDo[k] := false;
      }
      parallelChan := 0;
    }

    method ResetTimes()
      requires Shape()
      modifies incDelays, parallelTimes
      ensures incDelays[..] == NO_DELAYS && parallelTimes[..] == seq(TOTALCH, _ => 0.0)
    {
      for k := 0 to DELAYS
        invariant forall j :: 0 <= j < k ==> incDelays[j] == 0.0
      {
        incDelays[k] := 0.0;
      }
      for k := 0 to TOTALCH
        modifies parallelTimes
        invariant forall j :: 0 <= j < k ==> parallelTimes[j] == 0.0
      {
        parallelTimes[k] := 0.0;
      }
    }

    /** Runs from node 0 to the end; the n-th turn is the last. */
    method Walk(ghost s: Sim, ghost n: nat) returns (ghost end: nat)
      requires Valid() && parallelChan < TOTALCH && incDelays[..] == NO_DELAYS && View(0) == s
      requires !Active(nodes, Turns(nodes, NO_DELAYS, s, n))
      modifies this, timers, loopRcnt, loopDo, loopStack, rtval, parallelTimes
      ensures Valid() && Stopped(nodes, NO_DELAYS, s, n, View(end))
    {
      hide Turn, Turns;
      ghost var turns: nat := 0;
      var i: nat := 0;
      NoTurns(nodes, NO_DELAYS, s);
      while i < |nodes| && !nodes[i].LastCode?
        invariant Valid() && parallelChan < TOTALCH && turns <= n && incDelays[..] == NO_DELAYS
        invariant View(i) == Turns(nodes, NO_DELAYS, s, turns)
        decreases n - turns
      {
        NextTurns(nodes, NO_DELAYS, s, turns);
        StopsLater(nodes, NO_DELAYS, s, turns, n);
        var r := NodeTurn(i);
        i := r + 1;
        turns := turns + 1;
      }
      end := i;
      StaysStopped(nodes, NO_DELAYS, s, turns, n);
    }

    /** One scan: stops on every list, in the state that the turns from Initial reach. */
    method SimulateDpsCode(ct: int, ctNum: int) returns (ghost n: nat, ghost end: nat)
      requires Shape() && 0 < ct < RTMAX
      modifies this, timers, loopRcnt, loopDo, loopStack, rtval, incDelays, parallelTimes
      ensures Valid() && Stopped(nodes, NO_DELAYS, Initial(old(rtval[..])[ct := ctNum]), n, View(end))
    {
      ResetLevels();
      ResetTimes();
      rtval[ct] := ctNum;
      ghost var s := Initial(rtval[..]);
      n := Stops(nodes, NO_DELAYS, rtval[..]);
      assert View(0).frames == s.frames;
      end := Walk(s, n);
    }
  }

  const NO_DELAYS: seq<real> := seq(DELAYS, _ => 0.0)

  ghost predicate Stopped(nodes: seq<Node>, inc: seq<real>, s: Sim, n: nat, e: Sim)
    requires ValidSim(s) && |inc| == DELAYS
  {
    e == Turns(nodes, inc, s, n) && !Active(nodes, e)
  }

  lemma NoTurns(nodes: seq<Node>, inc: seq<real>, s: Sim)
    requires ValidSim(s) && |inc| == DELAYS
    ensures Turns(nodes, inc, s, 0) == s
  {
  }

  lemma StopsLater(nodes: seq<Node>, inc: seq<real>, s: Sim, k: nat, n: nat)
    requires ValidSim(s) && |inc| == DELAYS && k <= n
    requires Active(nodes, Turns(nodes, inc, s, k)) && !Active(nodes, Turns(nodes, inc, s, n))
    ensures k < n
  {
  }

  lemma NextTurns(nodes: seq<Node>, inc: seq<real>, s: Sim, k: nat)
    requires ValidSim(s) && |inc| == DELAYS && Active(nodes, Turns(nodes, inc, s, k))
    ensures Turns(nodes, inc, s, k + 1) == Turn(nodes, inc, Turns(nodes, inc, s, k))
  {
    hide Turn;
    TurnsSplit(nodes, inc, s, k, 1);
    var t := Turns(nodes, inc, s, k);
    assert Turns(nodes, inc, Turn(nodes, inc, t), 0) == Turn(nodes, inc, t);
  }

  /** A loop node's turn, but for the step to the next node. */
  function Started(s: Sim, start: Node): (r: Sim)
    requires ValidSim(s) && LoopStart(start)
    ensures ValidSim(r)
  {
    match start
    case Sloop(count, ctr) => var p := PushLoop(s, count); p.(rt := Set(p.rt, ctr, Top(p).rcnt))
    case Hloop(count) => PushLoop(s, count)
    case Msloop(count, ctr, x) => PushLoop(s.(rt := Set(Set(s.rt, count, Nearest(x)), ctr, Nearest(x))), count)
    case Rlloop(n, count, ctr) =>
      var p := PushLoop(s.(rt := Set(s.rt, count, n)), count); p.(rt := Set(p.rt, ctr, Top(p).rcnt))
  }

  lemma StartedTurn(nodes: seq<Node>, inc: seq<real>, s: Sim)
    requires |inc| == DELAYS && ValidSim(s) && Active(nodes, s) && LoopStart(nodes[s.pc])
    ensures Turn(nodes, inc, s) == Started(s, nodes[s.pc]).(pc := s.pc + 1)
  {
    hide Set, Nearest;
  }

  function Branched(nodes: seq<Node>, s: Sim): Sim
    requires s.pc < |nodes| && (TestNode(nodes[s.pc]) || nodes[s.pc].ElseNz?)
  {
    if nodes[s.pc].ElseNz? then s.(pc := Skip(nodes, s.pc + 1, 0, false) + 1) else Tested(nodes, s, nodes[s.pc])
  }

  function OnePassFewer(s: Sim, v: int): Sim
    requires ValidSim(s)
  {
    var n := Top(s).rcnt - 1;
    WithTop(s, Top(s).(rcnt := n)).(rt := Set(s.rt, v, n))
  }

  lemma ScaleIs(n: int, t: real)
    ensures Scale(n, t) == t * n as real
  {
  }

  lemma NearestOfInt(n: int)
    ensures Nearest(n as real) == n
  {
    if n > 0 { assert (n as real + 0.5).Floor == n; } else { assert (-(n as real) + 0.5).Floor == -n; }
  }

  /** The delays that INITDLY set are zeroed before every scan, so an INCDLY only makes its loop run every
      pass ... */
  lemma IncDlyReruns(v: int, slot: nat, rt: Vars)
    ensures LeafOut(IncDly(v, slot), NO_DELAYS, rt).time == 0.0
    ensures LeafOut(IncDly(v, slot), NO_DELAYS, rt).rerun <==> slot < DELAYS
  {
  }

  /** The list with no variable left to INCDLY. */
  function Blind(nodes: seq<Node>): seq<Node> {
    seq(|nodes|, i requires 0 <= i < |nodes| => if nodes[i].IncDly? then IncDly(0, nodes[i].slot) else nodes[i])
  }

  lemma {:induction false} BlindSkips(nodes: seq<Node>, pc: nat, level: nat, stopAtElse: bool)
    ensures Skip(Blind(nodes), pc, level, stopAtElse) == Skip(nodes, pc, level, stopAtElse)
    decreases |nodes| - pc
  {
    if pc < |nodes| {
      BlindSkips(nodes, pc + 1, level, stopAtElse);
      BlindSkips(nodes, pc + 1, level + 1, stopAtElse);
      if level > 0 { BlindSkips(nodes, pc + 1, level - 1, stopAtElse); }
    }
  }

  lemma BlindTurn(nodes: seq<Node>, s: Sim)
    requires ValidSim(s) && Active(nodes, s)
    ensures Active(Blind(nodes), s) && Turn(Blind(nodes), NO_DELAYS, s) == Turn(nodes, NO_DELAYS, s)
  {
    hide Skip, Set, Nearest, PushLoop, EndLoop, StartParallel, EndParallel, ArithResult;
    BlindSkips(nodes, s.pc + 1, 0, true);
    BlindSkips(nodes, s.pc + 1, 0, false);
  }

  /** ... and its variable makes no difference to any run of any list. */
  lemma {:induction false} IncDlyAddsNothing(nodes: seq<Node>, s: Sim, n: nat)
    requires ValidSim(s)
    ensures Turns(Blind(nodes), NO_DELAYS, s, n) == Turns(nodes, NO_DELAYS, s, n)
    decreases n
  {
    hide Turn;
    if n > 0 && Active(nodes, s) {
      BlindTurn(nodes, s);
      IncDlyAddsNothing(nodes, Turn(nodes, NO_DELAYS, s), n - 1);
    }
  }
}
