/** The dispatch loop of src/b12proc/b12proc.c from PULSEPROG_START to pb_start: each line of the
    code file updates the experiment's control state or programs board instructions.  `Emitted`
    and `Control` say what one line does; `Compile` is the whole loop. */
module B12Compiler {
  import opened PulseText
  import opened Board

  const RECV_UNBLANK := 2
  const AMP_UNBLANK := 4
  const NO_REC := -1
  const MIN_DELAY := 70.0         // nanoseconds
  const NS := 1000000000.0        // nanoseconds per second

  /** The part of the experiment state that instructions are built from. */
  datatype Control = Control(mps: int, amp: nat, shape: int, phaseReset: bool)

  const START_CONTROL := Control(0, 0, 0, false)

  /** `at` is the acquisition time in milliseconds that configExp works out. */
  datatype Exps = Exps(ctl: Control, op: Op, loop: nat, loopCnt: nat, expTime: real, at: real, board: seq<Inst>)

  function Quiet(ctl: Control, unblank: int, ns: real): Action {
    Action(0, false, ctl.phaseReset, false, 0, 0, NO_REC, unblank, ctl.mps, ns)
  }

  /** (int)(phase + 0.001) for the integer that was printed. */
  function TxPhase(phase: int): int {
    if phase >= 0 then phase else phase + 1
  }

  function Transmit(ctl: Control, width: real, phase: int): Action {
    Action(TxPhase(phase), true, ctl.phaseReset, false, ctl.shape, ctl.amp, NO_REC, AMP_UNBLANK, ctl.mps, width * NS)
  }

  function PulseActions(ctl: Control, width: real, phase: int, blank: real, ringdown: real): seq<Action> {
    if width <= 0.0 then []
    else
      (if blank > 0.0 then [Quiet(ctl, AMP_UNBLANK, blank * NS)] else [])
      + [Transmit(ctl, width, phase)]
      + (if ringdown > 0.0 then [Quiet(ctl, 0, ringdown * NS)] else [])
  }

  function DelayActions(ctl: Control, time: real): seq<Action> {
    if time <= 0.0 then [] else [Quiet(ctl, 0, time * NS)]
  }

  function AcquireAction(ctl: Control, rec: int, at: real): Action {
    Action(0, false, ctl.phaseReset, true, 0, 0, rec, RECV_UNBLANK, ctl.mps, at * 1000000.0)
  }

  /** The actions one line programs. */
  function Emitted(l: Line, ctl: Control, at: real): seq<Action> {
    match l
    case DelayElem(time) => DelayActions(ctl, time)
    case PulseElem(width, phase, blank, ringdown) => PulseActions(ctl, width, phase, blank, ringdown)
    case AcquireElem(rec) => [AcquireAction(ctl, rec, at)]
    case _ => []
  }

  function ShapeOf(amp: nat): int {
    if amp > 0 then 1 else 0
  }

  /** The control state after a line: an instruction uses up a pending phase reset. */
  function Controlled(l: Line, ctl: Control, at: real): Control {
    match l
    case PhaseReset => ctl.(phaseReset := true)
    case PowerElem(reg) => ctl.(amp := reg, shape := ShapeOf(reg))
    case StatusElem(on) => ctl.(mps := if on then 1 else 0)
    case Powers(_) => ctl.(amp := 0, shape := 0)
    case PulseprogStart(_) => START_CONTROL
    case _ => if Emitted(l, ctl, at) == [] then ctl else ctl.(phaseReset := false)
  }

  /** What a line adds to exp_time, in seconds. */
  function Elapsed(l: Line, at: real): real {
    match l
    case DelayElem(time) => if time > 0.0 then time else 0.0
    case PulseElem(width, _, blank, ringdown) =>
      if width > 0.0 then (if blank > 0.0 then blank else 0.0) + (width + ringdown) else 0.0
    case AcquireElem(_) => at * 0.001
    case _ => 0.0
  }

  /** The actions as instructions, with a flow operation on the j-th. */
  function Place(acts: seq<Action>, j: int, op: Op): seq<Inst> {
    seq(|acts|, i requires 0 <= i < |acts| => Inst(acts[i], if i == j then op else Continue))
  }

  /** The pending operation goes on the last instruction of a line; then resetExp. */
  function CompileEmit(l: Line, e: Exps): Exps {
    var acts := Emitted(l, e.ctl, e.at);
    var board := e.board + Place(acts, |acts| - 1, e.op);
    var time := e.expTime + Elapsed(l, e.at);
    e.(ctl := Controlled(l, e.ctl, e.at), op := Continue, board := board,
       loop := if e.op.Loop? && |board| > 0 then |board| - 1 else e.loop,
       expTime := if e.op.EndLoop? then time * e.loopCnt as real else time)
  }

  const STOP_ACTION := Action(0, false, false, false, 0, 0, NO_REC, 0, 0, MIN_DELAY)

  function CompileLine(l: Line, e: Exps): Exps {
    match l
    case PulseprogStart(_) => e.(ctl := START_CONTROL, op := Continue)
    case PulseElements => e.(expTime := 0.0, board := [])
    case NscLoop(count) => e.(op := Loop(count), loopCnt := count)
    case NscEndloop(_) => e.(op := EndLoop(e.loop))
    case PulseprogDone(_) =>
      e.(board := e.board + [Inst(STOP_ACTION, Stop)], expTime := e.expTime + MIN_DELAY / NS)
    case _ =>
      if Emitted(l, e.ctl, e.at) == [] then e.(ctl := Controlled(l, e.ctl, e.at))
      else CompileEmit(l, e)
  }

  function Compile(ls: seq<Line>, e: Exps): Exps {
    if ls == [] then e else Compile(ls[1..], CompileLine(ls[0], e))
  }

  /** The settings that each line leaves. */
  lemma LineSets(l: Line, e: Exps)
    ensures CompileLine(l, e).ctl.mps ==
              match l case StatusElem(on) => (if on then 1 else 0) case PulseprogStart(_) => 0 case _ => e.ctl.mps
    ensures CompileLine(l, e).ctl.amp ==
              match l case PowerElem(reg) => reg case Powers(_) => 0 case PulseprogStart(_) => 0 case _ => e.ctl.amp
    ensures CompileLine(l, e).ctl.shape ==
              match l
              case PowerElem(reg) => (if reg > 0 then 1 else 0)
              case Powers(_) => 0
              case PulseprogStart(_) => 0
              case _ => e.ctl.shape
    ensures CompileLine(l, e).loopCnt == if l.NscLoop? then l.count else e.loopCnt
    ensures l.NscLoop? ==> CompileLine(l, e).op == Loop(l.count)
    ensures l.NscEndloop? ==> CompileLine(l, e).op == EndLoop(e.loop)
    ensures CompileLine(PhaseReset, e).ctl.phaseReset
    ensures l.PulseprogStart? ==> CompileLine(l, e).op == Continue && !CompileLine(l, e).ctl.phaseReset
  {
  }

  /** Which lines program the board, apart from pulses: a delay, an acquisition and the end. */
  lemma LinePrograms(l: Line, e: Exps)
    requires !l.PulseElem?
    ensures var c, op := e.ctl, e.op;
            CompileLine(l, e).board ==
            match l
            case PulseElements => []
            case DelayElem(time) =>
              e.board
              + (if time <= 0.0 then []
                 else [Inst(Action(0, false, c.phaseReset, false, 0, 0, -1, 0, c.mps, time * 1000000000.0), op)])
            case AcquireElem(rec) =>
              e.board + [Inst(Action(0, false, c.phaseReset, true, 0, 0, rec, 2, c.mps, e.at * 1000000.0), op)]
            case PulseprogDone(_) => e.board + [Inst(Action(0, false, false, false, 0, 0, -1, 0, 0, 70.0), Stop)]
            case _ => e.board
    ensures CompileLine(l, e).expTime ==
            match l
            case PulseElements => 0.0
            case DelayElem(time) =>
              var t := e.expTime + time;
              if time <= 0.0 then e.expTime else if e.op.EndLoop? then t * e.loopCnt as real else t
            case AcquireElem(_) =>
              var t := e.expTime + e.at * 0.001; if e.op.EndLoop? then t * e.loopCnt as real else t
            case PulseprogDone(_) => e.expTime + 0.00000007
            case _ => e.expTime
    ensures l.AcquireElem? || (l.DelayElem? && l.time > 0.0) ==>
              var f := CompileLine(l, e);
              && f.op == Continue && f.ctl == e.ctl.(phaseReset := false)
              && f.loop == if e.op.Loop? then |e.board| else e.loop
  {
    if l.DelayElem? && l.time > 0.0 {
      assert Place(Emitted(l, e.ctl, e.at), 0, e.op) == [Inst(Emitted(l, e.ctl, e.at)[0], e.op)];
    }
    if l.AcquireElem? {
      assert Place(Emitted(l, e.ctl, e.at), 0, e.op) == [Inst(Emitted(l, e.ctl, e.at)[0], e.op)];
    }
  }

  /** A pulse in full: up to three instructions, the pending operation on the last. */
  lemma PulseCompiled(e: Exps, width: real, phase: int, blank: real, ringdown: real)
    ensures width <= 0.0 ==> CompileLine(PulseElem(width, phase, blank, ringdown), e) == e
    ensures var c := e.ctl;
            var b := e.board
                     + (if blank <= 0.0 then []
                        else [Inst(Action(0, false, c.phaseReset, false, 0, 0, -1, 4, c.mps, blank * 1000000000.0),
                                   Continue)])
                     + [Inst(Action(if phase >= 0 then phase else phase + 1, true, c.phaseReset, false, c.shape, c.amp,
                                    -1, 4, c.mps, width * 1000000000.0), if ringdown <= 0.0 then e.op else Continue)]
                     + (if ringdown <= 0.0 then []
                        else [Inst(Action(0, false, c.phaseReset, false, 0, 0, -1, 0, c.mps, ringdown * 1000000000.0),
                                   e.op)]);
            var t := e.expTime + ((if blank > 0.0 then blank else 0.0) + (width + ringdown));
            width > 0.0 ==>
              CompileLine(PulseElem(width, phase, blank, ringdown), e)
              == e.(ctl := c.(phaseReset := false), op := Continue, board := b,
                    loop := if e.op.Loop? then |b| - 1 else e.loop,
                    expTime := if e.op.EndLoop? then t * e.loopCnt as real else t)
  {
    var acts := Emitted(PulseElem(width, phase, blank, ringdown), e.ctl, e.at);
    if width > 0.0 {
      PulsePlaced(e, width, phase, blank, ringdown);
      hide Place;
      assert acts != [];
    }
  }

  lemma PulsePlaced(e: Exps, width: real, phase: int, blank: real, ringdown: real)
    requires width > 0.0
    ensures var c, acts := e.ctl, Emitted(PulseElem(width, phase, blank, ringdown), e.ctl, e.at);
            e.board + Place(acts, |acts| - 1, e.op)
            == e.board
               + (if blank <= 0.0 then []
                  else [Inst(Action(0, false, c.phaseReset, false, 0, 0, -1, 4, c.mps, blank * 1000000000.0),
                             Continue)])
               + [Inst(Action(if phase >= 0 then phase else phase + 1, true, c.phaseReset, false, c.shape, c.amp, -1, 4,
                              c.mps, width * 1000000000.0), if ringdown <= 0.0 then e.op else Continue)]
               + (if ringdown <= 0.0 then []
                  else [Inst(Action(0, false, c.phaseReset, false, 0, 0, -1, 0, c.mps, ringdown * 1000000000.0), e.op)])
  {
  }

  // ----- the dispatch loop -----------------------------------------------------------------

  class B12Proc {
    var mpsStatus: int
    var useAmp: nat
    var useShape: int
    var phaseReset: bool
    var opCode: Op
    var loop: nat
    var loopCnt: nat
    var expTime: real
    var board: seq<Inst>
    const at: real

    ghost function State(): Exps
      reads this
    {
      Exps(Control(mpsStatus, useAmp, useShape, phaseReset), opCode, loop, loopCnt, expTime, at, board)
    }

    constructor (at: real)
      ensures this.at == at
    {
      this.at := at;
    }

    /** pb_inst_radio_shape: returns the address of the new instruction. */
    method Program(act: Action, op: Op) returns (addr: nat)
      modifies this`board
      ensures board == old(board) + [Inst(act, op)] && addr == |old(board)|
    {
      addr := |board|;
      board := board + [Inst(act, op)];
    }

    method ResetExp(pbRes: nat)
      modifies this`loop, this`expTime, this`phaseReset, this`opCode
      ensures loop == if old(opCode).Loop? then pbRes else old(loop)
      ensures expTime == if old(opCode).EndLoop? then old(expTime) * loopCnt as real else old(expTime)
      ensures !phaseReset && opCode == Continue
    {
      if opCode.Loop? {
        loop := pbRes;
      }
      if opCode.EndLoop? {
        expTime := expTime * loopCnt as real;
      }
      phaseReset, opCode := false, Continue;
    }

    /** A blank delay, the pulse and a ringdown delay; the pending operation goes on the last. */
    method ProgramPulse(width: real, phase: int, blank: real, ringdown: real) returns (pbRes: nat)
      modifies this`board, this`expTime
      ensures board == old(board)
                + (if blank <= 0.0 then []
                   else [Inst(Action(0, false, phaseReset, false, 0, 0, -1, 4, mpsStatus, blank * 1000000000.0),
                              Continue)])
                + [Inst(Action(if phase >= 0 then phase else phase + 1, true, phaseReset, false, useShape, useAmp, -1,
                               4, mpsStatus, width * 1000000000.0), if ringdown <= 0.0 then opCode else Continue)]
                + (if ringdown <= 0.0 then []
                   else [Inst(Action(0, false, phaseReset, false, 0, 0, -1, 0, mpsStatus, ringdown * 1000000000.0),
                              opCode)])
      ensures expTime == old(expTime) + ((if blank > 0.0 then blank else 0.0) + (width + ringdown))
      ensures pbRes == |board| - 1
    {
      var iphase := TxPhase(phase);
      if blank > 0.0 {
        pbRes := Program(
          Action(0, false, phaseReset, false, 0, 0, NO_REC, AMP_UNBLANK, mpsStatus, blank * NS), Continue);
        expTime := expTime + blank;
      }
      if ringdown > 0.0 {
        pbRes := Program(
          Action(iphase, true, phaseReset, false, useShape, useAmp, NO_REC, AMP_UNBLANK, mpsStatus, width * NS),
          Continue);
        pbRes := Program(Action(0, false, phaseReset, false, 0, 0, NO_REC, 0, mpsStatus, ringdown * NS), opCode);
      } else {
        pbRes := Program(
          Action(iphase, true, phaseReset, false, useShape, useAmp, NO_REC, AMP_UNBLANK, mpsStatus, width * NS),
          opCode);
      }
      expTime := expTime + (width + ringdown);
    }

    method DispatchPulse(width: real, phase: int, blank: real, ringdown: real)
      modifies this
      ensures State() == CompileLine(PulseElem(width, phase, blank, ringdown), old(State()))
      ensures width <= 0.0 ==> board == old(board)
      ensures width > 0.0 ==>
                board == old(board)
                         + (if blank <= 0.0 then []
                            else [Inst(Action(0, false, old(phaseReset), false, 0, 0, -1, 4, old(mpsStatus),
                                              blank * 1000000000.0), Continue)])
                         + [Inst(Action(if phase >= 0 then phase else phase + 1, true, old(phaseReset), false,
                                        old(useShape), old(useAmp), -1, 4, old(mpsStatus), width * 1000000000.0),
                                 if ringdown <= 0.0 then old(opCode) else Continue)]
                         + (if ringdown <= 0.0 then []
                            else [Inst(Action(0, false, old(phaseReset), false, 0, 0, -1, 0, old(mpsStatus),
                                              ringdown * 1000000000.0), old(opCode))])
    {
      hide CompileLine;
      PulseCompiled(State(), width, phase, blank, ringdown);
      if width > 0.0 {
        var pbRes := ProgramPulse(width, phase, blank, ringdown);
        ResetExp(pbRes);
      }
    }

    method DispatchDelay(time: real)
      modifies this
      ensures State() == CompileLine(DelayElem(time), old(State()))
      ensures board == old(board) + if time <= 0.0 then [] else
                [Inst(Action(0, false, old(phaseReset), false, 0, 0, -1, 0, old(mpsStatus), time * 1000000000.0),
                      old(opCode))]
    {
      ghost var e := State();
      ghost var acts := Emitted(DelayElem(time), e.ctl, at);
      if time > 0.0 {
        var pbRes := Program(Action(0, false, phaseReset, false, 0, 0, NO_REC, 0, mpsStatus, time * NS), opCode);
        assert board == e.board + Place(acts, |acts| - 1, e.op);
        expTime := expTime + time;
        ResetExp(pbRes);
      }
    }

    method DispatchAcquire(rec: int)
      modifies this
      ensures State() == CompileLine(AcquireElem(rec), old(State()))
      ensures board == old(board) +
                [Inst(Action(0, false, old(phaseReset), true, 0, 0, rec, 2, old(mpsStatus), at * 1000000.0),
                      old(opCode))]
    {
      ghost var e := State();
      ghost var acts := Emitted(AcquireElem(rec), e.ctl, at);
      var pbRes := Program(Action(0, false, phaseReset, true, 0, 0, rec, RECV_UNBLANK, mpsStatus, at * 1000000.0),
                           opCode);
      assert board == e.board + Place(acts, |acts| - 1, e.op);
      expTime := expTime + at * 0.001;
      ResetExp(pbRes);
    }

    method Dispatch(l: Line)
      modifies this
      ensures State() == CompileLine(l, old(State()))
    {
      hide CompileEmit, Place;
      match l {
        case PulseprogStart(_) =>
          opCode, mpsStatus, useAmp, useShape := Continue, 0, 0, 0;
          ResetExp(0);
        case Powers(_) =>
          useAmp, useShape := 0, 0;
        case PowerElem(num) =>
          useAmp, useShape := num, if num > 0 then 1 else 0;
        case PulseElements =>
          expTime, board := 0.0, [];
        case PhaseReset =>
          phaseReset := true;
        case NscLoop(count) =>
          opCode, loopCnt := Loop(count), count;
        case NscEndloop(_) =>
          opCode := EndLoop(loop);
        case DelayElem(time) =>
          DispatchDelay(time);
        case PulseElem(width, phase, blank, ringdown) =>
          DispatchPulse(width, phase, blank, ringdown);
        case AcquireElem(rec) =>
          DispatchAcquire(rec);
        case StatusElem(on) =>
          mpsStatus := if on then 1 else 0;
        case PulseprogDone(_) =>
          var _ := Program(Action(0, false, false, false, 0, 0, NO_REC, 0, 0, MIN_DELAY), Stop);
          expTime := expTime + MIN_DELAY / NS;
        case _ =>
      }
    }

    method Run(lines: seq<Line>)
      modifies this
      ensures State() == Compile(lines, old(State()))
    {
      var r := 0;
      assert lines[0..] == lines;
      while r < |lines|
        invariant r <= |lines| && Compile(lines, old(State())) == Compile(lines[r..], State())
      {
        assert lines[r..][0] == lines[r] && lines[r..][1..] == lines[r + 1..];
        Dispatch(lines[r]);
        r := r + 1;
      }
    }
  }
}
