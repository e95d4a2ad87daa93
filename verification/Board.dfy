/** The pulse board as an assumed small machine: instructions with an action and a flow operation.
    LOOP loads a counter when it is entered; END_LOOP counts down and jumps back to the address it
    carries while the counter has not run out, and is a plain instruction when no loop is open. */
module Board {
  /** One instruction's output: the arguments of pb_inst_radio_shape.  The flag word of the
      source is `unblank + mps`. */
  datatype Action = Action(
    txPhase: int, txOn: bool, phaseReset: bool, trigger: bool, shape: int, amp: nat,
    rec: int, unblank: int, mps: int, ns: real)

  datatype Op = Continue | Loop(count: nat) | EndLoop(addr: nat) | Stop

  datatype Inst = Inst(act: Action, op: Op)

  datatype Frame = Frame(addr: nat, left: nat)

  datatype Machine = Machine(pc: nat, frames: seq<Frame>, halted: bool)

  const START := Machine(0, [], false)

  function Step(prog: seq<Inst>, m: Machine): Machine
    requires m.pc < |prog|
  {
    var top := |m.frames| - 1;
    match prog[m.pc].op
    case Continue => m.(pc := m.pc + 1)
    case Stop => m.(halted := true)
    case Loop(n) =>
      if top >= 0 && m.frames[top].addr == m.pc then m.(pc := m.pc + 1)
      else m.(pc := m.pc + 1, frames := m.frames + [Frame(m.pc, n)])
    case EndLoop(addr) =>
      if top < 0 then m.(pc := m.pc + 1)
      else if m.frames[top].left > 1 then
        m.(pc := addr, frames := m.frames[..top] + [m.frames[top].(left := m.frames[top].left - 1)])
      else m.(pc := m.pc + 1, frames := m.frames[..top])
  }

  function Running(prog: seq<Inst>, m: Machine): bool {
    !m.halted && m.pc < |prog|
  }

  /** The machine after at most n instructions. */
  function After(prog: seq<Inst>, m: Machine, n: nat): Machine
    decreases n
  {
    if n == 0 || !Running(prog, m) then m else After(prog, Step(prog, m), n - 1)
  }

  /** The actions of those instructions. */
  function Trace(prog: seq<Inst>, m: Machine, n: nat): seq<Action>
    decreases n
  {
    if n == 0 || !Running(prog, m) then []
    else [prog[m.pc].act] + Trace(prog, Step(prog, m), n - 1)
  }

  /** From m the program performs exactly the actions t and is then in m'. */
  ghost predicate Goes(prog: seq<Inst>, m: Machine, t: seq<Action>, m': Machine) {
    Trace(prog, m, |t|) == t && After(prog, m, |t|) == m'
  }

  /** Started at its first instruction, the program performs exactly `trace` and stops. */
  ghost predicate Performs(prog: seq<Inst>, trace: seq<Action>) {
    Trace(prog, START, |trace|) == trace && After(prog, START, |trace|).halted
  }

  lemma {:induction false} TraceSplit(prog: seq<Inst>, m: Machine, a: nat, b: nat)
    ensures After(prog, m, a + b) == After(prog, After(prog, m, a), b)
    ensures Trace(prog, m, a + b) == Trace(prog, m, a) + Trace(prog, After(prog, m, a), b)
    decreases a
  {
    if a > 0 && Running(prog, m) {
      TraceSplit(prog, Step(prog, m), a - 1, b);
    }
  }

  lemma GoesOn(prog: seq<Inst>, m: Machine, t: seq<Action>, m1: Machine, t1: seq<Action>, m2: Machine)
    requires Goes(prog, m, t, m1) && Goes(prog, m1, t1, m2)
    ensures Goes(prog, m, t + t1, m2)
  {
    TraceSplit(prog, m, |t|, |t1|);
  }

  lemma GoesStep(prog: seq<Inst>, m: Machine)
    requires Running(prog, m)
    ensures Goes(prog, m, [prog[m.pc].act], Step(prog, m))
  {
    assert Trace(prog, Step(prog, m), 0) == [];
  }

  lemma PerformsLonger(prog: seq<Inst>, t: seq<Action>, n: nat)
    requires Performs(prog, t) && n >= |t|
    ensures Trace(prog, START, n) == t
  {
    TraceSplit(prog, START, |t|, n - |t|);
  }

  /** A program performs at most one trace. */
  lemma PerformsOnce(prog: seq<Inst>, t1: seq<Action>, t2: seq<Action>)
    requires Performs(prog, t1) && Performs(prog, t2)
    ensures t1 == t2
  {
    PerformsLonger(prog, t1, |t1| + |t2|);
    PerformsLonger(prog, t2, |t1| + |t2|);
  }

  function Actions(prog: seq<Inst>): (r: seq<Action>)
    ensures |r| == |prog|
  {
    seq(|prog|, i requires 0 <= i < |prog| => prog[i].act)
  }

  function Repeat(s: seq<Action>, k: nat): seq<Action> {
    if k == 0 then [] else s + Repeat(s, k - 1)
  }

  lemma {:induction false} RepeatLength(s: seq<Action>, k: nat)
    ensures |Repeat(s, k)| == k * |s|
  {
    if k > 0 {
      RepeatLength(s, k - 1);
      assert k * |s| == (k - 1) * |s| + |s|;
    }
  }

  /** Plain instructions run one after the other. */
  lemma {:induction false} RunPlain(prog: seq<Inst>, lo: nat, hi: nat, frames: seq<Frame>)
    requires lo <= hi <= |prog| && forall i :: lo <= i < hi ==> prog[i].op == Continue
    ensures Goes(prog, Machine(lo, frames, false), Actions(prog)[lo..hi], Machine(hi, frames, false))
    decreases hi - lo
  {
    if lo < hi {
      var m := Machine(lo, frames, false);
      RunPlain(prog, lo + 1, hi, frames);
      GoesStep(prog, m);
      GoesOn(prog, m, [prog[lo].act], Step(prog, m), Actions(prog)[lo + 1..hi], Machine(hi, frames, false));
      assert Actions(prog)[lo..hi] == [prog[lo].act] + Actions(prog)[lo + 1..hi];
    }
  }

  ghost predicate IsLoop(prog: seq<Inst>, p: nat, q: nat) {
    && p < q < |prog| && prog[p].op.Loop? && prog[q].op == EndLoop(p)
    && forall i :: p < i < q ==> prog[i].op == Continue
  }

  /** One pass through a loop, up to its END_LOOP's decision. */
  lemma OnePass(prog: seq<Inst>, p: nat, q: nat, k: nat)
    requires IsLoop(prog, p, q)
    ensures Goes(prog, Machine(p, [Frame(p, k)], false), Actions(prog)[p..q + 1],
            Step(prog, Machine(q, [Frame(p, k)], false)))
  {
    var a, m, m1, m2 := Actions(prog), Machine(p, [Frame(p, k)], false), Machine(p + 1, [Frame(p, k)], false),
        Machine(q, [Frame(p, k)], false);
    GoesStep(prog, m);
    RunPlain(prog, p + 1, q, m.frames);
    GoesOn(prog, m, [prog[p].act], m1, a[p + 1..q], m2);
    GoesStep(prog, m2);
    GoesOn(prog, m, [prog[p].act] + a[p + 1..q], m2, [prog[q].act], Step(prog, m2));
    assert [prog[p].act] == a[p..p + 1] && [prog[q].act] == a[q..q + 1];
    assert a[p..q + 1] == a[p..p + 1] + a[p + 1..q] + a[q..q + 1];
  }

  /** From its first instruction, with k passes left, a loop runs its body k times. */
  lemma {:induction false} RunLoop(prog: seq<Inst>, p: nat, q: nat, k: nat)
    requires IsLoop(prog, p, q) && k >= 1
    ensures Goes(prog, Machine(p, [Frame(p, k)], false), Repeat(Actions(prog)[p..q + 1], k), Machine(q + 1, [], false))
    decreases k
  {
    var m, body := Machine(p, [Frame(p, k)], false), Actions(prog)[p..q + 1];
    OnePass(prog, p, q, k);
    if k > 1 {
      RunLoop(prog, p, q, k - 1);
      GoesOn(prog, m, body, Machine(p, [Frame(p, k - 1)], false), Repeat(body, k - 1), Machine(q + 1, [], false));
    } else {
      assert Repeat(body, 0) == [] && body + [] == body;
    }
  }

  /** Entering a loop loads the counter, and that is all. */
  lemma EnterLoop(prog: seq<Inst>, p: nat, k: nat, t: seq<Action>, m: Machine)
    requires p < |prog| && prog[p].op == Loop(k) && t != []
    requires Goes(prog, Machine(p, [Frame(p, k)], false), t, m)
    ensures Goes(prog, Machine(p, [], false), t, m)
  {
    assert [] + [Frame(p, k)] == [Frame(p, k)];
    assert Step(prog, Machine(p, [], false)) == Step(prog, Machine(p, [Frame(p, k)], false));
  }

  /** A program with one loop [p, q] run n times and a final STOP. */
  lemma LoopedProgram(prog: seq<Inst>, p: nat, q: nat, n: nat)
    requires IsLoop(prog, p, q) && prog[p].op == Loop(n) && n >= 1
    requires q + 1 < |prog| && prog[|prog| - 1].op == Stop
    requires forall i :: 0 <= i < p || q < i < |prog| - 1 ==> prog[i].op == Continue
    ensures Performs(prog, Actions(prog)[..p] + Repeat(Actions(prog)[p..q + 1], n) + Actions(prog)[q + 1..])
  {
    var a, last := Actions(prog), |prog| - 1;
    var loop := Repeat(a[p..q + 1], n);
    RepeatLength(a[p..q + 1], n);
    assert |loop| >= 1 by { assert n * (q + 1 - p) >= 1 * (q + 1 - p); }
    RunPlain(prog, 0, p, []);
    RunLoop(prog, p, q, n);
    EnterLoop(prog, p, n, loop, Machine(q + 1, [], false));
    GoesOn(prog, START, a[0..p], Machine(p, [], false), loop, Machine(q + 1, [], false));
    RunToStop(prog, q + 1, a[0..p] + loop, []);
    assert a[0..p] == a[..p];
  }

  lemma RunToStop(prog: seq<Inst>, lo: nat, t: seq<Action>, frames: seq<Frame>)
    requires lo < |prog| && prog[|prog| - 1].op == Stop
    requires forall i :: lo <= i < |prog| - 1 ==> prog[i].op == Continue
    requires Goes(prog, START, t, Machine(lo, frames, false))
    ensures Performs(prog, t + Actions(prog)[lo..])
  {
    var a, last := Actions(prog), |prog| - 1;
    var m := Machine(last, frames, false);
    RunPlain(prog, lo, last, frames);
    GoesOn(prog, START, t, Machine(lo, frames, false), a[lo..last], m);
    GoesStep(prog, m);
    GoesOn(prog, START, t + a[lo..last], m, [prog[last].act], Step(prog, m));
    assert t + a[lo..] == t + a[lo..last] + [prog[last].act];
  }

  /** A program with a single LOOP or a single END_LOOP never jumps: it performs its
      instructions once each. */
  lemma StraightProgram(prog: seq<Inst>, p: nat)
    requires 0 < |prog| && prog[|prog| - 1].op == Stop
    requires p < |prog| - 1 ==> !prog[p].op.Stop?
    requires forall i :: 0 <= i < |prog| - 1 && i != p ==> prog[i].op == Continue
    ensures Performs(prog, Actions(prog))
  {
    var a, last := Actions(prog), |prog| - 1;
    if p >= last {
      RunToStop(prog, 0, [], []);
      assert [] + a[0..] == a;
    } else {
      RunPlain(prog, 0, p, []);
      var m := Machine(p, [], false);
      GoesStep(prog, m);
      GoesOn(prog, START, a[0..p], m, [prog[p].act], Step(prog, m));
      RunToStop(prog, p + 1, a[0..p] + [prog[p].act], Step(prog, m).frames);
      assert a == a[0..p] + [prog[p].act] + a[p + 1..];
    }
  }
}
