/** simulate_dps_code stops on every node list, nested or not, although loops jump back. */
module DpsTermination {
  import opened DpsNodes

  /** Every level has a pass to go and began no earlier than those below, before the current node. */
  ghost predicate Sound(s: Sim) {
    && ValidSim(s)
    && (forall i :: 0 <= i < |s.frames| ==> s.frames[i].rcnt >= 1 && s.frames[i].start < s.pc)
    && (forall i, j :: 0 <= i < j < |s.frames| ==> s.frames[i].start <= s.frames[j].start)
  }

  /** The lowest k levels have the passes and starts they had. */
  ghost predicate KeptBelow(s: Sim, t: Sim, k: int) {
    && k <= |s.frames| && k <= |t.frames|
    && forall i :: 0 <= i < k ==> t.frames[i].rcnt == s.frames[i].rcnt && t.frames[i].start == s.frames[i].start
  }

  /** One turn stays on its level and moves on, or has one pass fewer to go ... */
  ghost predicate Stays(s: Sim, t: Sim)
    requires |s.frames| >= 1
  {
    var k := |s.frames|;
    && |t.frames| == k && KeptBelow(s, t, k - 1)
    && Top(t).start >= Top(s).start && t.pc > Top(s).start
    && (Top(t).rcnt < Top(s).rcnt || (Top(t).rcnt == Top(s).rcnt && t.pc > s.pc))
  }

  /** ... or enters a level, or leaves one. */
  ghost predicate Enters(s: Sim, t: Sim) {
    var k := |s.frames|;
    |t.frames| == k + 1 && KeptBelow(s, t, k) && Top(t).start == s.pc && t.pc > s.pc
  }

  ghost predicate Leaves(s: Sim, t: Sim)
    requires |s.frames| >= 1
  {
    var k := |s.frames|;
    k >= 2 && |t.frames| == k - 1 && KeptBelow(s, t, k - 1) && t.pc > Top(s).start
  }

  ghost predicate Shaped(s: Sim, t: Sim)
    requires |s.frames| >= 1
  {
    Sound(t) && (Stays(s, t) || Enters(s, t) || Leaves(s, t))
  }

  lemma EndShape(s: Sim, v: int)
    requires Sound(s)
    ensures Shaped(s, EndLoop(s, v))
  {
    hide Scale, Set;
    var top, k := Top(s), |s.frames| - 1;
    if top.rerun && top.rcnt > 1 {
      assert Stays(s, EndLoop(s, v));
    } else if k == 0 {
      assert Stays(s, EndLoop(s, v));
    } else {
      assert Leaves(s, EndLoop(s, v));
    }
  }

  lemma StartShape(s: Sim, chan: int)
    requires Sound(s)
    ensures Shaped(s, StartParallel(s, chan).(pc := s.pc + 1))
  {
    var k, t := |s.frames|, StartParallel(s, chan).(pc := s.pc + 1);
    if |CloseChannel(s).frames| < k {
      assert KeptBelow(s, t, k - 1);
    } else {
      assert CloseChannel(s).frames == s.frames;
      assert KeptBelow(s, t, k);
    }
  }

  lemma JoinShape(s: Sim)
    requires Sound(s)
    ensures Shaped(s, EndParallel(s).(pc := s.pc + 1))
  {
    hide Longest;
    var k, t := |s.frames|, EndParallel(s).(pc := s.pc + 1);
    if |CloseChannel(s).frames| < k {
      assert KeptBelow(s, t, k - 1);
      assert Leaves(s, t);
    } else {
      assert CloseChannel(s).frames == s.frames;
      assert KeptBelow(s, t, k);
      assert Stays(s, t);
    }
  }

  lemma PushShape(s: Sim, v: int, rt: Vars, rt1: Vars)
    requires Sound(s)
    ensures ValidSim(s.(rt := rt)) && Shaped(s, PushLoop(s.(rt := rt), v).(rt := rt1, pc := s.pc + 1))
  {
    hide Get;
  }

  lemma FlatShape(nodes: seq<Node>, inc: seq<real>, s: Sim)
    requires Sound(s) && |inc| == DELAYS && Active(nodes, s)
    requires !nodes[s.pc].ParallelStart? && !nodes[s.pc].ParallelEnd? && !nodes[s.pc].LoopEnd?
    requires !nodes[s.pc].Sloop? && !nodes[s.pc].Hloop? && !nodes[s.pc].Msloop? && !nodes[s.pc].Rlloop?
    ensures Shaped(s, Turn(nodes, inc, s))
  {
    hide Scale, Skip, Set, Get, ArithResult, Nearest, IfVal;
    var t := Turn(nodes, inc, s);
    assert |t.frames| == |s.frames| && KeptBelow(s, t, |s.frames|) && t.pc > s.pc;
    assert Stays(s, t);
  }

  lemma LoopShape(nodes: seq<Node>, inc: seq<real>, s: Sim)
    requires Sound(s) && |inc| == DELAYS && Active(nodes, s)
    requires nodes[s.pc].Sloop? || nodes[s.pc].Hloop? || nodes[s.pc].Msloop? || nodes[s.pc].Rlloop?
    ensures Shaped(s, Turn(nodes, inc, s))
  {
    assert ValidSim(s);
    hide Shaped, Sound, ValidSim, PushLoop, Set, Nearest;
    match nodes[s.pc]
    case Sloop(count, ctr) => PushShape(s, count, s.rt, Set(s.rt, ctr, Top(PushLoop(s, count)).rcnt));
    case Hloop(count) => PushShape(s, count, s.rt, PushLoop(s, count).rt);
    case Msloop(count, ctr, x) =>
      var rt := Set(Set(s.rt, count, Nearest(x)), ctr, Nearest(x));
      PushShape(s, count, rt, PushLoop(s.(rt := rt), count).rt);
    case Rlloop(n, count, ctr) =>
      var rt := Set(s.rt, count, n);
      PushShape(s, count, rt, Set(PushLoop(s.(rt := rt), count).rt, ctr, Top(PushLoop(s.(rt := rt), count)).rcnt));
  }

  lemma TurnShape(nodes: seq<Node>, inc: seq<real>, s: Sim)
    requires Sound(s) && |inc| == DELAYS && Active(nodes, s)
    ensures Shaped(s, Turn(nodes, inc, s))
  {
    assert ValidSim(s);
    hide Shaped, Sound, ValidSim, PushLoop, EndLoop, StartParallel, EndParallel, Set, Nearest, Skip, ArithResult;
    var n := nodes[s.pc];
    if n.ParallelStart? {
      StartShape(s, n.chan);
    } else if n.ParallelEnd? {
      JoinShape(s);
    } else if n.LoopEnd? {
      EndShape(s, n.ctr);
    } else if n.Sloop? || n.Hloop? || n.Msloop? || n.Rlloop? {
      LoopShape(nodes, inc, s);
    } else {
      FlatShape(nodes, inc, s);
    }
  }

  /** From any sound state the run stops, or leaves the level it is on. */
  lemma {:induction false} Unwinds(nodes: seq<Node>, inc: seq<real>, s: Sim) returns (n: nat)
    requires Sound(s) && |inc| == DELAYS
    ensures var e := Turns(nodes, inc, s, n);
            !Active(nodes, e) || (Sound(e) && Leaves(s, e))
    decreases MAXLEVEL - |s.frames|, Top(s).rcnt, |nodes| - s.pc
  {
    hide Turn;
    if !Active(nodes, s) {
      n := 0;
    } else {
      var t := Turn(nodes, inc, s);
      TurnShape(nodes, inc, s);
      if Stays(s, t) {
        var m := Unwinds(nodes, inc, t);
        n := m + 1;
      } else if Enters(s, t) {
        var m := Unwinds(nodes, inc, t);
        var e := Turns(nodes, inc, t, m);
        if Active(nodes, e) {
          var l := Unwinds(nodes, inc, e);
          TurnsSplit(nodes, inc, t, m, l);
          n := m + l + 1;
        } else {
          n := m + 1;
        }
      } else {
        n := 1;
      }
    }
  }

  /** The state in which simulate_dps_code starts, with the scan number in variable ct. */
  function Initial(rt: Vars): (s: Sim)
    ensures ValidSim(s)
  {
    Sim(0, [BASE_FRAME], rt, 0, seq(TOTALCH, _ => 0.0))
  }

  /** Every run stops, whatever the nodes. */
  lemma Stops(nodes: seq<Node>, inc: seq<real>, rt: Vars) returns (n: nat)
    requires |inc| == DELAYS
    ensures !Active(nodes, Turns(nodes, inc, Initial(rt), n))
  {
    n := Unwinds(nodes, inc, Initial(rt));
  }

  /** Where it has stopped it stays. */
  lemma {:induction false} StaysStopped(nodes: seq<Node>, inc: seq<real>, s: Sim, n: nat, m: nat)
    requires ValidSim(s) && |inc| == DELAYS
    requires !Active(nodes, Turns(nodes, inc, s, n)) && !Active(nodes, Turns(nodes, inc, s, m))
    ensures Turns(nodes, inc, s, n) == Turns(nodes, inc, s, m)
  {
    if n <= m { TurnsSplit(nodes, inc, s, n, m - n); } else { TurnsSplit(nodes, inc, s, m, n - m); }
  }
}
