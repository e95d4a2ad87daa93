/** What the compiled program of one FID performs, exactly: where LOOP and END_LOOP land, the trace
    that follows, and when that trace is the nt scans asked for. */
module PulseCorrectness {
  import opened PulseText
  import opened Board
  import opened B12Compiler
  import opened PulseMeaning

  // ----- where a pending operation lands ------------------------------------------------------

  /** How many instructions a line programs; control state does not matter. */
  function Count(l: Line): nat {
    match l
    case DelayElem(time) => if time > 0.0 then 1 else 0
    case PulseElem(width, _, blank, ringdown) =>
      if width > 0.0 then 1 + (if blank > 0.0 then 1 else 0) + (if ringdown > 0.0 then 1 else 0) else 0
    case AcquireElem(_) => 1
    case _ => 0
  }

  /** The instructions of the first line that programs any, 0 if none does. */
  function FirstCount(ls: seq<Line>): nat {
    if ls == [] then 0 else if Count(ls[0]) > 0 then Count(ls[0]) else FirstCount(ls[1..])
  }

  function TimeOfLines(ls: seq<Line>, at: real): real {
    if ls == [] then 0.0 else Elapsed(ls[0], at) + TimeOfLines(ls[1..], at)
  }

  /** Time up to and including the first line that programs an instruction. */
  function FirstTime(ls: seq<Line>, at: real): real {
    if ls == [] then 0.0 else if Count(ls[0]) > 0 then Elapsed(ls[0], at) else FirstTime(ls[1..], at)
  }

  function Plain(acts: seq<Action>): seq<Inst> {
    Place(acts, -1, Continue)
  }

  lemma CountEmitted(l: Line, ctl: Control, at: real)
    ensures |Emitted(l, ctl, at)| == Count(l)
    ensures Count(l) == 0 && IsElement(l) ==> Elapsed(l, at) == 0.0
  {
  }

  lemma {:induction false} FirstCountActs(ls: seq<Line>, ctl: Control, at: real)
    ensures FirstCount(ls) <= |Acts(ls, ctl, at)|
    ensures FirstCount(ls) == 0 <==> Acts(ls, ctl, at) == []
  {
    if ls != [] {
      CountEmitted(ls[0], ctl, at);
      FirstCountActs(ls[1..], Controlled(ls[0], ctl, at), at);
    }
  }

  lemma {:induction false} CompileConcat(a: seq<Line>, b: seq<Line>, e: Exps)
    ensures Compile(a + b, e) == Compile(b, Compile(a, e))
  {
    if a == [] {
      assert a + b == b;
    } else {
      assert (a + b)[1..] == a[1..] + b;
      CompileConcat(a[1..], b, CompileLine(a[0], e));
    }
  }

  lemma PlaceConcat(a: seq<Action>, b: seq<Action>, j: nat, op: Op)
    ensures j < |a| ==> Place(a, j, op) + Plain(b) == Place(a + b, j, op)
    ensures Plain(a) + Place(b, j, op) == Place(a + b, |a| + j, op)
    ensures Plain(a) + Plain(b) == Plain(a + b)
  {
  }

  lemma CompileOne(l: Line, e: Exps)
    requires IsElement(l)
    ensures Count(l) == 0 ==> CompileLine(l, e) == e.(ctl := Controlled(l, e.ctl, e.at))
    ensures Count(l) > 0 ==> CompileLine(l, e) == CompileEmit(l, e)
  {
    CountEmitted(l, e.ctl, e.at);
  }

  /** With nothing pending, lines are programmed as plain instructions. */
  lemma {:induction false} CompilePlain(ls: seq<Line>, e: Exps)
    requires Elements(ls) && e.op == Continue
    ensures Compile(ls, e)
            == e.(ctl := ControlAfter(ls, e.ctl, e.at), board := e.board + Plain(Acts(ls, e.ctl, e.at)),
                  expTime := e.expTime + TimeOfLines(ls, e.at))
  {
    hide Emitted, Elapsed;
    if ls == [] {
      assert e.board + Plain([]) == e.board;
    } else {
      var l, acts := ls[0], Emitted(ls[0], e.ctl, e.at);
      var e1, rest := CompileLine(l, e), Acts(ls[1..], Controlled(l, e.ctl, e.at), e.at);
      CompileOne(l, e);
      CountEmitted(l, e.ctl, e.at);
      assert Place(acts, |acts| - 1, Continue) == Plain(acts);
      assert e1.board == e.board + Plain(acts);
      CompilePlain(ls[1..], e1);
      PlaceConcat(acts, rest, 0, Continue);
      assert e.board + Plain(acts) + Plain(rest) == e.board + (Plain(acts) + Plain(rest));
    }
  }

  /** A pending LOOP or END_LOOP lands on the last instruction of the first line that programs
      any.  LOOP records that address; END_LOOP multiplies the time so far by the loop count. */
  function Landed(ls: seq<Line>, e: Exps): Exps {
    var k := FirstCount(ls);
    var done := e.expTime + FirstTime(ls, e.at);
    if k == 0 then e.(ctl := ControlAfter(ls, e.ctl, e.at))
    else e.(ctl := ControlAfter(ls, e.ctl, e.at), op := Continue,
            board := e.board + Place(Acts(ls, e.ctl, e.at), k - 1, e.op),
            loop := if e.op.Loop? then |e.board| + k - 1 else e.loop,
            expTime := (if e.op.EndLoop? then done * e.loopCnt as real else done)
                       + (TimeOfLines(ls, e.at) - FirstTime(ls, e.at)))
  }

  lemma LandOnFirst(ls: seq<Line>, e: Exps)
    requires Elements(ls) && ls != [] && Count(ls[0]) > 0
    ensures Compile(ls, e) == Landed(ls, e)
  {
    var l, acts := ls[0], Emitted(ls[0], e.ctl, e.at);
    var e1, rest := CompileEmit(l, e), Acts(ls[1..], Controlled(l, e.ctl, e.at), e.at);
    CompileOne(l, e);
    CountEmitted(l, e.ctl, e.at);
    CompilePlain(ls[1..], e1);
    PlaceAfter(e.board, acts, rest, e.op);
  }

  lemma PlaceAfter(board: seq<Inst>, acts: seq<Action>, rest: seq<Action>, op: Op)
    requires |acts| > 0
    ensures board + Place(acts, |acts| - 1, op) + Plain(rest) == board + Place(acts + rest, |acts| - 1, op)
  {
    PlaceConcat(acts, rest, |acts| - 1, op);
  }

  lemma {:induction false} CompilePending(ls: seq<Line>, e: Exps)
    requires Elements(ls) && (e.op.Loop? || e.op.EndLoop?)
    ensures Compile(ls, e) == Landed(ls, e)
  {
    if ls != [] {
      var l := ls[0];
      CompileOne(l, e);
      CountEmitted(l, e.ctl, e.at);
      if Count(l) == 0 {
        var e1 := e.(ctl := Controlled(l, e.ctl, e.at));
        CompilePending(ls[1..], e1);
        assert Acts(ls, e.ctl, e.at) == Acts(ls[1..], e1.ctl, e.at);
      } else {
        LandOnFirst(ls, e);
      }
    }
  }

  lemma {:induction false} TimeConcat(a: seq<Line>, b: seq<Line>, at: real)
    ensures TimeOfLines(a + b, at) == TimeOfLines(a, at) + TimeOfLines(b, at)
  {
    if a == [] {
      assert a + b == b;
    } else {
      assert (a + b)[1..] == a[1..] + b;
      TimeConcat(a[1..], b, at);
    }
  }

  // ----- the board program of a loop and a remainder -------------------------------------------

  const STOP_INST := Inst(STOP_ACTION, Stop)

  function LoopLines(pre: seq<Line>, last: Line, n: nat, nt: nat): seq<Line> {
    [NscLoop(n)] + pre + [NscEndloop(nt)] + [last]
  }

  lemma CompileSingle(l: Line, e: Exps)
    ensures Compile([l], e) == CompileLine(l, e)
  {
    assert [l][1..] == [];
  }

  function AfterPre(pre: seq<Line>, n: nat, e: Exps): Exps {
    Landed(pre, e.(op := Loop(n), loopCnt := n))
  }

  /** The loop's lines, up to its last element: LOOP has landed, or is still pending. */
  lemma CompileLoopLines(pre: seq<Line>, last: Line, n: nat, nt: nat, e: Exps)
    requires Elements(pre)
    ensures var e1 := AfterPre(pre, n, e);
            Compile(LoopLines(pre, last, n, nt), e) == CompileLine(last, e1.(op := EndLoop(e1.loop)))
  {
    var e0 := e.(op := Loop(n), loopCnt := n);
    var e1 := AfterPre(pre, n, e);
    CompileConcat([NscLoop(n)] + pre + [NscEndloop(nt)], [last], e);
    CompileConcat([NscLoop(n)] + pre, [NscEndloop(nt)], e);
    CompileConcat([NscLoop(n)], pre, e);
    CompileSingle(NscLoop(n), e);
    CompilePending(pre, e0);
    CompileSingle(NscEndloop(nt), e1);
    CompileSingle(last, e1.(op := EndLoop(e1.loop)));
  }

  /** The whole program of a FID after its header. */
  function FidLines(pre: seq<Line>, last: Line, rest: seq<Line>, n: nat, nt: nat, ix: nat): seq<Line> {
    LoopLines(pre, last, n, nt) + rest + [PulseprogDone(ix)]
  }

  lemma CompileFid(pre: seq<Line>, last: Line, rest: seq<Line>, n: nat, nt: nat, ix: nat, e: Exps)
    requires Elements(pre)
    ensures var e1 := AfterPre(pre, n, e);
            var e2 := CompileLine(last, e1.(op := EndLoop(e1.loop)));
            var e3 := Compile(rest, e2);
            Compile(FidLines(pre, last, rest, n, nt, ix), e)
            == e3.(board := e3.board + [STOP_INST], expTime := e3.expTime + MIN_DELAY / NS)
  {
    var e1 := AfterPre(pre, n, e);
    var e2 := CompileLine(last, e1.(op := EndLoop(e1.loop)));
    CompileLoopLines(pre, last, n, nt, e);
    CompileConcat(LoopLines(pre, last, n, nt) + rest, [PulseprogDone(ix)], e);
    CompileConcat(LoopLines(pre, last, n, nt), rest, e);
    CompileSingle(PulseprogDone(ix), Compile(rest, e2));
  }

  /** A FID's state right after its header. */
  ghost predicate Fresh(e: Exps) {
    e.op == Continue && e.board == [] && e.expTime == 0.0
  }

  function LoopActs(pre: seq<Line>, last: Line, ctl: Control, at: real): seq<Action> {
    Acts(pre, ctl, at) + Emitted(last, ControlAfter(pre, ctl, at), at)
  }

  function RestActs(pre: seq<Line>, last: Line, rest: seq<Line>, ctl: Control, at: real): seq<Action> {
    Acts(rest, Controlled(last, ControlAfter(pre, ctl, at), at), at)
  }

  /** Whether both operations land, and LOOP first. */
  predicate Jumps(pre: seq<Line>, last: Line, rest: seq<Line>) {
    FirstCount(pre) > 0 && (Count(last) > 0 || FirstCount(rest) > 0)
  }

  /** The end of the loop the board runs: END_LOOP slips into the rest when the last element
      programs nothing. */
  function LoopEnd(pre: seq<Line>, last: Line, rest: seq<Line>, ctl: Control, at: real): (end: nat)
    requires Jumps(pre, last, rest)
    ensures FirstCount(pre) <= end <= |LoopActs(pre, last, ctl, at) + RestActs(pre, last, rest, ctl, at)|
  {
    FirstCountActs(pre, ctl, at);
    FirstCountActs(rest, Controlled(last, ControlAfter(pre, ctl, at), at), at);
    |LoopActs(pre, last, ctl, at)| + if Count(last) > 0 then 0 else FirstCount(rest)
  }

  /** What the board performs for a loop of n passes over pre + [last], then rest. */
  function LoopTrace(pre: seq<Line>, last: Line, rest: seq<Line>, n: nat, ctl: Control, at: real): seq<Action> {
    var all := LoopActs(pre, last, ctl, at) + RestActs(pre, last, rest, ctl, at);
    if Jumps(pre, last, rest) then
      var from, end := FirstCount(pre) - 1, LoopEnd(pre, last, rest, ctl, at);
      all[..from] + Repeat(all[from..end], n) + all[end..] + [STOP_ACTION]
    else all + [STOP_ACTION]
  }

  /** Two instructions of a program carry LOOP and END_LOOP. */
  lemma PlacedLoop(x: seq<Action>, y: seq<Action>, z: seq<Action>, p: nat, j: nat, n: nat)
    requires p < |x| && j < |y| && n >= 1
    ensures var prog := Place(x, p, Loop(n)) + Place(y, j, EndLoop(p)) + Plain(z) + [STOP_INST];
            var all := x + y + z;
            Performs(prog, all[..p] + Repeat(all[p..|x| + j + 1], n) + all[|x| + j + 1..] + [STOP_ACTION])
  {
    var prog := Place(x, p, Loop(n)) + Place(y, j, EndLoop(p)) + Plain(z) + [STOP_INST];
    var all, q := x + y + z, |x| + j;
    assert prog[p].op == Loop(n) && prog[q].op == EndLoop(p);
    LoopedProgram(prog, p, q, n);
    var acts := Actions(prog);
    assert acts == all + [STOP_ACTION];
    assert acts[..p] == all[..p] && acts[p..q + 1] == all[p..q + 1] && acts[q + 1..] == all[q + 1..] + [STOP_ACTION];
    assert acts[..p] + Repeat(acts[p..q + 1], n) + acts[q + 1..]
           == all[..p] + Repeat(all[p..q + 1], n) + all[q + 1..] + [STOP_ACTION];
  }

  lemma PlacedLate(x: seq<Action>, y: seq<Action>, p: nat, j: nat, n: nat)
    requires p < |x| && j < |y| && n >= 1
    ensures var all := x + y;
            Performs(Place(x, p, Loop(n)) + Place(y, j, EndLoop(p)) + [STOP_INST],
                     all[..p] + Repeat(all[p..|x| + j + 1], n) + all[|x| + j + 1..] + [STOP_ACTION])
  {
    PlacedLoop(x, y, [], p, j, n);
    assert x + y + [] == x + y;
    assert Place(x, p, Loop(n)) + Place(y, j, EndLoop(p)) + Plain([]) == Place(x, p, Loop(n)) + Place(y, j, EndLoop(p));
  }

  /** One instruction at most carries an operation. */
  lemma PlacedOne(x: seq<Action>, z: seq<Action>, j: nat, op: Op)
    requires !op.Stop?
    ensures Performs(Place(x, j, op) + Plain(z) + [STOP_INST], x + z + [STOP_ACTION])
  {
    var prog := Place(x, j, op) + Plain(z) + [STOP_INST];
    StraightProgram(prog, if j < |x| then j else |prog|);
    assert Actions(prog) == x + z + [STOP_ACTION];
  }

  /** The state after the loop's lines. */
  function AfterLoop(pre: seq<Line>, last: Line, n: nat, e: Exps): Exps {
    var e1 := AfterPre(pre, n, e);
    CompileLine(last, e1.(op := EndLoop(e1.loop)))
  }

  lemma AfterLoopIs(pre: seq<Line>, last: Line, n: nat, e: Exps)
    requires Elements(pre) && IsElement(last) && Fresh(e)
    ensures var x, c := Acts(pre, e.ctl, e.at), ControlAfter(pre, e.ctl, e.at);
            var y, k := Emitted(last, c, e.at), FirstCount(pre);
            var placed := if k == 0 then [] else Place(x, k - 1, Loop(n));
            var addr := if k == 0 then e.loop else k - 1;
            var r := AfterLoop(pre, last, n, e);
            && k <= |x| && (k == 0 ==> x == []) && |y| == Count(last)
            && r.ctl == Controlled(last, c, e.at) && r.at == e.at && r.loopCnt == n
            && r.op == (if y == [] then EndLoop(addr) else Continue)
            && r.board == placed + Place(y, |y| - 1, EndLoop(addr))
  {
    hide Emitted, Elapsed, Controlled, TimeOfLines, FirstTime;
    var c := ControlAfter(pre, e.ctl, e.at);
    var e1 := AfterPre(pre, n, e);
    FirstCountActs(pre, e.ctl, e.at);
    CountEmitted(last, c, e.at);
    CompileOne(last, e1.(op := EndLoop(e1.loop)));
    assert e1.ctl == c;
    if FirstCount(pre) > 0 {
      assert e1.board == Place(Acts(pre, e.ctl, e.at), FirstCount(pre) - 1, Loop(n));
    }
  }

  /** LOOP landed in the body, END_LOOP on the last element. */
  lemma PerformsWell(pre: seq<Line>, last: Line, rest: seq<Line>, n: nat, nt: nat, ix: nat, e: Exps)
    requires Elements(pre) && IsElement(last) && Elements(rest) && Fresh(e) && n >= 1
    requires FirstCount(pre) > 0 && Count(last) > 0
    ensures Performs(Compile(FidLines(pre, last, rest, n, nt, ix), e).board, LoopTrace(pre, last, rest, n, e.ctl, e.at))
  {
    var x := Acts(pre, e.ctl, e.at);
    var y := Emitted(last, ControlAfter(pre, e.ctl, e.at), e.at);
    var z := RestActs(pre, last, rest, e.ctl, e.at);
    var e2 := AfterLoop(pre, last, n, e);
    CompileFid(pre, last, rest, n, nt, ix, e);
    AfterLoopIs(pre, last, n, e);
    CompilePlain(rest, e2);
    PlacedLoop(x, y, z, FirstCount(pre) - 1, |y| - 1, n);
  }

  lemma BoardLate(pre: seq<Line>, last: Line, rest: seq<Line>, n: nat, nt: nat, ix: nat, e: Exps)
    requires Elements(pre) && IsElement(last) && Elements(rest) && Fresh(e)
    requires FirstCount(pre) > 0 && Count(last) == 0 && FirstCount(rest) > 0
    ensures var p, j := FirstCount(pre) - 1, FirstCount(rest) - 1;
            var x, y := Acts(pre, e.ctl, e.at), RestActs(pre, last, rest, e.ctl, e.at);
            && p < |x| && j < |y|
            && Compile(FidLines(pre, last, rest, n, nt, ix), e).board
               == Place(x, p, Loop(n)) + Place(y, j, EndLoop(p)) + [STOP_INST]
  {
    var e2 := AfterLoop(pre, last, n, e);
    CompileFid(pre, last, rest, n, nt, ix, e);
    AfterLoopIs(pre, last, n, e);
    FirstCountActs(rest, e2.ctl, e.at);
    CompilePending(rest, e2);
    assert e2.board == Place(Acts(pre, e.ctl, e.at), FirstCount(pre) - 1, Loop(n));
  }

  /** The last element programs nothing: END_LOOP slips into the rest. */
  lemma PerformsLate(pre: seq<Line>, last: Line, rest: seq<Line>, n: nat, nt: nat, ix: nat, e: Exps)
    requires Elements(pre) && IsElement(last) && Elements(rest) && Fresh(e) && n >= 1
    requires FirstCount(pre) > 0 && Count(last) == 0 && FirstCount(rest) > 0
    ensures Performs(Compile(FidLines(pre, last, rest, n, nt, ix), e).board, LoopTrace(pre, last, rest, n, e.ctl, e.at))
  {
    hide Acts, RestActs, Compile, Performs, Place, LoopTrace;
    var x, y := Acts(pre, e.ctl, e.at), RestActs(pre, last, rest, e.ctl, e.at);
    var p, j := FirstCount(pre) - 1, FirstCount(rest) - 1;
    LateTrace(pre, last, rest, n, e.ctl, e.at);
    var prog := Place(x, p, Loop(n)) + Place(y, j, EndLoop(p)) + [STOP_INST];
    PlacedLate(x, y, p, j, n);
    assert Performs(prog, LoopTrace(pre, last, rest, n, e.ctl, e.at));
    BoardLate(pre, last, rest, n, nt, ix, e);
  }

  lemma LateTrace(pre: seq<Line>, last: Line, rest: seq<Line>, n: nat, ctl: Control, at: real)
    requires FirstCount(pre) > 0 && Count(last) == 0 && FirstCount(rest) > 0
    ensures var x, y := Acts(pre, ctl, at), RestActs(pre, last, rest, ctl, at);
            var all, p, j := x + y, FirstCount(pre) - 1, FirstCount(rest) - 1;
            && p < |x| && j < |y|
            && LoopTrace(pre, last, rest, n, ctl, at)
               == all[..p] + Repeat(all[p..|x| + j + 1], n) + all[|x| + j + 1..] + [STOP_ACTION]
  {
    CountEmitted(last, ControlAfter(pre, ctl, at), at);
    FirstCountActs(pre, ctl, at);
    FirstCountActs(rest, Controlled(last, ControlAfter(pre, ctl, at), at), at);
    assert LoopActs(pre, last, ctl, at) == Acts(pre, ctl, at);
  }

  /** END_LOOP is never written. */
  lemma PerformsOpen(pre: seq<Line>, last: Line, rest: seq<Line>, n: nat, nt: nat, ix: nat, e: Exps)
    requires Elements(pre) && IsElement(last) && Elements(rest) && Fresh(e)
    requires FirstCount(pre) > 0 && Count(last) == 0 && FirstCount(rest) == 0
    ensures Performs(Compile(FidLines(pre, last, rest, n, nt, ix), e).board, LoopTrace(pre, last, rest, n, e.ctl, e.at))
  {
    hide Emitted, Elapsed, TimeOfLines, FirstTime, Performs, Controlled;
    var x := Acts(pre, e.ctl, e.at);
    var e2 := AfterLoop(pre, last, n, e);
    CompileFid(pre, last, rest, n, nt, ix, e);
    AfterLoopIs(pre, last, n, e);
    FirstCountActs(rest, e2.ctl, e.at);
    CompilePending(rest, e2);
    PlacedOne(x, [], FirstCount(pre) - 1, Loop(n));
    assert Place(x, FirstCount(pre) - 1, Loop(n)) + Plain([]) == e2.board;
    assert LoopTrace(pre, last, rest, n, e.ctl, e.at) == x + [] + [STOP_ACTION];
  }

  /** END_LOOP has overwritten LOOP. */
  lemma PerformsOverwritten(pre: seq<Line>, last: Line, rest: seq<Line>, n: nat, nt: nat, ix: nat, e: Exps)
    requires Elements(pre) && IsElement(last) && Elements(rest) && Fresh(e)
    requires FirstCount(pre) == 0 && Count(last) > 0
    ensures Performs(Compile(FidLines(pre, last, rest, n, nt, ix), e).board, LoopTrace(pre, last, rest, n, e.ctl, e.at))
  {
    hide Emitted, Elapsed, TimeOfLines, FirstTime, Performs, Controlled;
    var y := Emitted(last, ControlAfter(pre, e.ctl, e.at), e.at);
    var z := RestActs(pre, last, rest, e.ctl, e.at);
    var e2 := AfterLoop(pre, last, n, e);
    CompileFid(pre, last, rest, n, nt, ix, e);
    AfterLoopIs(pre, last, n, e);
    CompilePlain(rest, e2);
    PlacedOne(y, z, |y| - 1, EndLoop(e.loop));
    assert e2.board == Place(y, |y| - 1, EndLoop(e.loop));
    assert LoopActs(pre, last, e.ctl, e.at) == y;
  }

  /** The trace of the board, whatever the sequence. */
  lemma LoopPerforms(pre: seq<Line>, last: Line, rest: seq<Line>, n: nat, nt: nat, ix: nat, e: Exps)
    requires Elements(pre) && IsElement(last) && Elements(rest) && Fresh(e) && n >= 1
    requires LoopActs(pre, last, e.ctl, e.at) != []
    ensures Performs(Compile(FidLines(pre, last, rest, n, nt, ix), e).board, LoopTrace(pre, last, rest, n, e.ctl, e.at))
  {
    if FirstCount(pre) == 0 {
      FirstCountActs(pre, e.ctl, e.at);
      CountEmitted(last, ControlAfter(pre, e.ctl, e.at), e.at);
      PerformsOverwritten(pre, last, rest, n, nt, ix, e);
    } else if Count(last) > 0 {
      PerformsWell(pre, last, rest, n, nt, ix, e);
    } else if FirstCount(rest) > 0 {
      PerformsLate(pre, last, rest, n, nt, ix, e);
    } else {
      PerformsOpen(pre, last, rest, n, nt, ix, e);
    }
  }

  /** The loop is placed well: LOOP on the body's first instruction, END_LOOP on its last. */
  predicate WellPlaced(pre: seq<Line>, last: Line) {
    FirstCount(pre) == 1 && Count(last) > 0
  }

  lemma LoopedLength(all: seq<Action>, from: nat, end: nat, n: nat)
    requires from <= end <= |all| && n >= 1
    ensures |all[..from] + Repeat(all[from..end], n) + all[end..]| == |all| + (n - 1) * (end - from)
  {
    RepeatLength(all[from..end], n);
  }

  lemma SameProduct(n: nat, x: nat, y: nat)
    requires n >= 2
    ensures (n - 1) * x == (n - 1) * y <==> x == y
  {
    if x < y {
      assert (n - 1) * (y - x) >= 1;
    } else if y < x {
      assert (n - 1) * (x - y) >= 1;
    }
  }

  /** The length of a looped stretch tells whether it is the body. */
  lemma LoopedExactly(a: seq<Action>, b: seq<Action>, from: nat, end: nat, n: nat)
    requires n >= 2 && from <= end <= |a + b|
    ensures var all := a + b;
            |all[..from] + Repeat(all[from..end], n) + all[end..]| == n * |a| + |b| ==> end - from == |a|
  {
    LoopedLength(a + b, from, end, n);
    SameProduct(n, end - from, |a|);
    assert n * |a| == |a| + (n - 1) * |a|;
  }

  lemma WholeBody(a: seq<Action>, b: seq<Action>, n: nat)
    ensures var all := a + b; all[..0] + Repeat(all[0..|a|], n) + all[|a|..] == Repeat(a, n) + b
  {
    assert (a + b)[0..|a|] == a && (a + b)[|a|..] == b;
  }

  /** The board performs n bodies and the rest if and only if the loop is placed well; otherwise
      not even the number of instructions is right. */
  lemma LoopTraceExact(pre: seq<Line>, last: Line, rest: seq<Line>, n: nat, ctl: Control, at: real)
    requires n >= 2 && LoopActs(pre, last, ctl, at) != []
    requires FirstCount(rest) == 0 || FirstCount(rest) == FirstCount(pre + [last])
    ensures var a, b := LoopActs(pre, last, ctl, at), RestActs(pre, last, rest, ctl, at);
            var trace := LoopTrace(pre, last, rest, n, ctl, at);
            && (WellPlaced(pre, last) ==> trace == Repeat(a, n) + b + [STOP_ACTION])
            && (|trace| == n * |a| + |b| + 1 ==> WellPlaced(pre, last))
  {
    var a, b := LoopActs(pre, last, ctl, at), RestActs(pre, last, rest, ctl, at);
    FirstCountPre(pre, last);
    if Jumps(pre, last, rest) {
      LoopedExactly(a, b, FirstCount(pre) - 1, LoopEnd(pre, last, rest, ctl, at), n);
      WholeBody(a, b, n);
    } else {
      SameProduct(n, 0, |a|);
      assert n * |a| == |a| + (n - 1) * |a|;
    }
  }

  lemma {:induction false} FirstCountPre(pre: seq<Line>, last: Line)
    ensures FirstCount(pre + [last]) == if FirstCount(pre) > 0 then FirstCount(pre) else Count(last)
  {
    if pre == [] {
      assert pre + [last] == [last] && [last][1..] == [];
    } else {
      assert (pre + [last])[1..] == pre[1..] + [last];
      FirstCountPre(pre[1..], last);
    }
  }
}
