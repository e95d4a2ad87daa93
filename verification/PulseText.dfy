/** What pulse-program generation writes, as data: the lines of the code file, the calls a pulse
    sequence makes, and the lines that one scan of a sequence produces.  Times are reals. */
module PulseText {
  import opened Common
  import opened Phase

  datatype Line =
    | PulseprogStart(elem: nat)
    | NumberPoints(np: int)
    | SpectrometerFrequency(sfrq: real)
    | NumberOfScans(nt: nat)
    | SpectralWidth(sw: real)
    | Powers(vals: seq<int>)
    | PulseElements
    | Rattn(db: real)
    | MpsPower(power: real)
    | PhaseReset
    | NscLoop(count: nat)
    | NscEndloop(scans: nat)
    | DelayElem(time: real)
    | PulseElem(width: real, phase: int, blank: real, ringdown: real)
    | AcquireElem(rec: int)
    | PowerElem(reg: nat)
    | StatusElem(on: bool)
    | OffsetElem(freq: real)
    | PulseprogDone(ix: nat)

  /** The calls a user pulse sequence makes, in order. */
  datatype Call =
    | Settable(tab: nat, vals: seq<int>)
    | Delay(time: real)
    | Pulse(width: real, phase: int)
    | RgPulse(width: real, phase: int, rg1: real, rg2: real)
    | Acquire
    | Status(state: nat)
    | RlPower(amp: real)
    | Offset(freq: real)

  datatype Params = Params(
    np: int, sfrq: real, sw: real, nt: nat, tpwrf: real, rattn: real, mpspower: Option<real>,
    rof1: real, rof2: real, alfa: real, xm: string, cpflag: bool)

  /** What the sequence programmer owes: known tables of a legal length. */
  predicate ValidCall(c: Call) {
    match c
    case Settable(tab, vals) => tab <= OPH && 1 <= |vals| <= TABLE_SIZE
    case Pulse(width, phase) => 0 <= phase <= OPH
    case RgPulse(width, phase, _, _) => 0 <= phase <= OPH
    case _ => true
  }

  predicate ValidCalls(calls: seq<Call>) {
    forall k :: 0 <= k < |calls| ==> ValidCall(calls[k])
  }

  /** Tables are t numbers up to 24, and settable takes one to thirty-two entries; all else is legal. */
  lemma LegalCalls(c: Call)
    ensures ValidCall(c) <==> && (c.Settable? ==> c.tab <= 24 && 1 <= |c.vals| <= 32)
                              && (c.Pulse? || c.RgPulse? ==> 0 <= c.phase <= 24)
  {
  }

  // ----- power registers -------------------------------------------------------------------

  const POWER_REGISTERS := 4
  const FULL_POWER := 1000
  const UNUSED := -1

  /** The C conversion (int)(amp*10 + 0.1): truncation toward zero. */
  function Quantise(amp: real): int {
    var x := amp * 10.0 + 0.1;
    if x >= 0.0 then x.Floor else -((-x).Floor)
  }

  /** Tenths, cut off toward zero; the tenth of a tenth makes up for the rounding of what was typed in. */
  lemma Quantised(amp: real)
    ensures var x, r := amp * 10.0 + 0.1, Quantise(amp) as real;
            if x >= 0.0 then r <= x < r + 1.0 else r - 1.0 < x <= r
  {
  }

  /** The register a power uses: the first with that value, register 0 when there is none. */
  function RegisterOf(regs: seq<int>, val: int): nat {
    if exists i :: 0 <= i < |regs| && regs[i] == val && forall j :: 0 <= j < i ==> regs[j] != val then
      var i :| 0 <= i < |regs| && regs[i] == val && forall j :: 0 <= j < i ==> regs[j] != val;
      i
    else 0
  }

  lemma RegisterFound(regs: seq<int>, val: int)
    ensures val in regs ==> RegisterOf(regs, val) < |regs| && regs[RegisterOf(regs, val)] == val
    ensures val !in regs ==> RegisterOf(regs, val) == 0
  {
    if val in regs {
      FirstAt(regs, val);
    }
  }

  lemma {:induction false} FirstAt(regs: seq<int>, val: int)
    requires val in regs
    ensures exists i :: 0 <= i < |regs| && regs[i] == val && forall j :: 0 <= j < i ==> regs[j] != val
  {
    var k := |regs| - 1;
    if val in regs[..k] {
      FirstAt(regs[..k], val);
      var i :| 0 <= i < k && regs[..k][i] == val && forall j :: 0 <= j < i ==> regs[..k][j] != val;
      assert regs[i] == val && forall j :: 0 <= j < i ==> regs[j] == regs[..k][j];
    } else {
      assert regs[k] == val;
      forall j | 0 <= j < k ensures regs[j] != val {
        assert regs[j] == regs[..k][j];
      }
    }
  }

  /** addPowerVal on the registers in use.  Registers not in use hold -1, and a quantised
      power of -1 is taken for one of them.  None: the program is aborted. */
  function AddPower(regs: seq<int>, val: int): Option<seq<int>>
    requires |regs| <= POWER_REGISTERS
  {
    if val in regs || (val == UNUSED && |regs| < POWER_REGISTERS) then Some(regs)
    else if |regs| < POWER_REGISTERS then Some(regs + [val])
    else None
  }

  // ----- the dry pass ----------------------------------------------------------------------

  function DryTables(calls: seq<Call>, ts: seq<Table>): (r: seq<Table>)
    requires ValidTables(ts) && ValidCalls(calls)
    ensures ValidTables(r)
  {
    if calls == [] then ts
    else DryTables(calls[1..], DryCall(calls[0], ts))
  }

  function DryCall(c: Call, ts: seq<Table>): (r: seq<Table>)
    requires ValidTables(ts) && ValidCall(c)
    ensures ValidTables(r)
  {
    match c
    case Pulse(width, phase) => if width <= 0.0 then ts else WithInUse(ts, phase)
    case RgPulse(width, phase, _, _) => if width <= 0.0 then ts else WithInUse(ts, phase)
    case _ => CallTables(c, ts)
  }

  function DryPowers(calls: seq<Call>, regs: seq<int>): Option<seq<int>>
    requires |regs| <= POWER_REGISTERS
  {
    if calls == [] then Some(regs)
    else if calls[0].RlPower? then
      match AddPower(regs, Quantise(calls[0].amp))
      case None => None
      case Some(more) => DryPowers(calls[1..], more)
    else DryPowers(calls[1..], regs)
  }

  /** The registers after initPowerVal, addPowerVal(tpwrf) and the dry pass. */
  function Registers(calls: seq<Call>, tpwrf: real): Option<seq<int>> {
    DryPowers([RlPower(tpwrf)] + calls, [FULL_POWER])
  }

  // ----- one scan --------------------------------------------------------------------------

  function CallTables(c: Call, ts: seq<Table>): (r: seq<Table>)
    requires ValidTables(ts) && ValidCall(c)
    ensures ValidTables(r)
  {
    if c.Settable? then WithTable(ts, c.tab, c.vals) else ts
  }

  function TablesAfter(calls: seq<Call>, ts: seq<Table>): (r: seq<Table>)
    requires ValidTables(ts) && ValidCalls(calls)
    ensures ValidTables(r)
  {
    if calls == [] then ts else TablesAfter(calls[1..], CallTables(calls[0], ts))
  }

  function DelayLines(time: real): seq<Line> {
    if time <= 0.0 then [] else [DelayElem(time)]
  }

  function PulseLines(width: real, phase: int, rg1: real, rg2: real, ts: seq<Table>, i: nat): seq<Line>
    requires ValidTables(ts)
  {
    if width <= 0.0 then [] else [PulseElem(width, PhaseAt(ts, phase, i), rg1, rg2)]
  }

  function AcquireLines(alfa: real, ts: seq<Table>, i: nat): seq<Line>
    requires ValidTables(ts)
  {
    DelayLines(alfa) + [AcquireElem(PhaseAt(ts, OPH, i))]
  }

  /** xm has one character per status letter; past its end the last one holds, and the position
      just past the end reads the terminator of the string. */
  predicate StatusOn(xm: string, state: nat) {
    if state < |xm| then xm[state] == 'y'
    else state > |xm| > 0 && xm[|xm| - 1] == 'y'
  }

  function CallLines(c: Call, ts: seq<Table>, i: nat, p: Params, regs: seq<int>): seq<Line>
    requires ValidTables(ts)
  {
    match c
    case Settable(_, _) => []
    case Delay(time) => DelayLines(time)
    case Pulse(width, phase) => PulseLines(width, phase, p.rof1, p.rof2, ts, i)
    case RgPulse(width, phase, rg1, rg2) => PulseLines(width, phase, rg1, rg2, ts, i)
    case Acquire => AcquireLines(p.alfa, ts, i)
    case Status(state) => [StatusElem(StatusOn(p.xm, state))]
    case RlPower(amp) => [PowerElem(RegisterOf(regs, Quantise(amp)))]
    case Offset(freq) => [OffsetElem(freq)]
  }

  /** What each call writes: with its own phase, the sequence's delays, the status letter of xm, and the
      register that holds the amplitude. */
  lemma CallWrites(c: Call, ts: seq<Table>, i: nat, p: Params, regs: seq<int>)
    requires ValidTables(ts) && ValidCall(c)
    ensures c.Settable? ==> CallLines(c, ts, i, p, regs) == []
    ensures c.Delay? ==> CallLines(c, ts, i, p, regs) == if c.time > 0.0 then [DelayElem(c.time)] else []
    ensures c.Pulse? ==>
              CallLines(c, ts, i, p, regs) ==
              if c.width <= 0.0 then []
              else [PulseElem(c.width, ts[c.phase].phase[i % |ts[c.phase].phase|], p.rof1, p.rof2)]
    ensures c.RgPulse? ==>
              CallLines(c, ts, i, p, regs) ==
              if c.width <= 0.0 then []
              else [PulseElem(c.width, ts[c.phase].phase[i % |ts[c.phase].phase|], c.rg1, c.rg2)]
    ensures c.Acquire? ==>
              CallLines(c, ts, i, p, regs) ==
              (if p.alfa > 0.0 then [DelayElem(p.alfa)] else []) + [AcquireElem(ts[24].phase[i % |ts[24].phase|])]
    ensures c.Status? ==>
              CallLines(c, ts, i, p, regs) ==
              [StatusElem((c.state < |p.xm| && p.xm[c.state] == 'y')
                          || (c.state > |p.xm| > 0 && p.xm[|p.xm| - 1] == 'y'))]
    ensures c.RlPower? ==>
              var ls, val := CallLines(c, ts, i, p, regs), Quantise(c.amp);
              && |ls| == 1 && ls[0].PowerElem?
              && (if val in regs then ls[0].reg < |regs| && regs[ls[0].reg] == val else ls[0].reg == 0)
    ensures c.Offset? ==> CallLines(c, ts, i, p, regs) == [OffsetElem(c.freq)]
  {
    if c.RlPower? { RegisterFound(regs, Quantise(c.amp)); }
  }

  function Lines(calls: seq<Call>, ts: seq<Table>, i: nat, p: Params, regs: seq<int>): seq<Line>
    requires ValidTables(ts) && ValidCalls(calls)
  {
    if calls == [] then []
    else CallLines(calls[0], ts, i, p, regs)
         + Lines(calls[1..], CallTables(calls[0], ts), i, p, regs)
  }

  predicate HasAcquire(calls: seq<Call>) {
    exists k :: 0 <= k < |calls| && calls[k].Acquire?
  }

  function LeadLines(lead: bool, p: Params, regs: seq<int>): seq<Line> {
    if lead then [PowerElem(RegisterOf(regs, Quantise(p.tpwrf)))] else []
  }

  /** A sequence that never acquires gets an acquisition at its end. */
  function TailLines(calls: seq<Call>, ts: seq<Table>, i: nat, p: Params, regs: seq<int>): seq<Line>
    requires ValidTables(ts) && ValidCalls(calls)
  {
    if HasAcquire(calls) then [] else AcquireLines(p.alfa, TablesAfter(calls, ts), i)
  }

  /** The lines of the scan with index i; `lead` scans start with the transmitter power. */
  function ScanLines(calls: seq<Call>, ts: seq<Table>, i: nat, lead: bool, p: Params, regs: seq<int>): seq<Line>
    requires ValidTables(ts) && ValidCalls(calls)
  {
    [PhaseReset] + LeadLines(lead, p, regs) + Lines(calls, ts, i, p, regs) + TailLines(calls, ts, i, p, regs)
  }

  function Scans(calls: seq<Call>, ts: seq<Table>, lo: nat, hi: nat, lead: bool, p: Params, regs: seq<int>): seq<Line>
    requires ValidTables(ts) && ValidCalls(calls) && lo <= hi
    decreases hi
  {
    if lo == hi then []
    else Scans(calls, ts, lo, hi - 1, lead, p, regs) + ScanLines(calls, ts, hi - 1, lead, p, regs)
  }

  // ----- the whole program of one FID ------------------------------------------------------

  datatype LoopPlan = LoopPlan(loops: nat, cycle: nat, rem: nat)

  /** chkLoop: how many times the phase cycle is looped, its length, and the scans left over. */
  function CheckLoop(maxPh: nat, totalScans: nat): LoopPlan
    requires maxPh >= 1
  {
    var lps := totalScans / maxPh;
    if lps > 1 then LoopPlan(lps, maxPh, totalScans - lps * maxPh)
    else LoopPlan(0, 0, totalScans)
  }

  /** NSC_ENDLOOP is written while the last element is still held back, so it precedes it. */
  function CloseLoop(body: seq<Line>, nt: nat): seq<Line>
    requires |body| > 0
  {
    body[..|body| - 1] + [NscEndloop(nt)] + body[|body| - 1..]
  }

  lemma EndloopIsSecondLast(body: seq<Line>, nt: nat)
    requires |body| > 0
    ensures CloseLoop(body, nt) == body[..|body| - 1] + [NscEndloop(nt), body[|body| - 1]]
  {
  }

  function Header(p: Params, regs: seq<int>): seq<Line> {
    [NumberPoints(p.np), SpectrometerFrequency(p.sfrq), NumberOfScans(p.nt), SpectralWidth(p.sw),
     Powers(regs), PulseElements, Rattn(p.rattn)]
    + if p.mpspower.Some? then [MpsPower(p.mpspower.value)] else []
  }

  function EmittedTables(calls: seq<Call>, p: Params): seq<Table>
    requires ValidCalls(calls)
  {
    DryTables(calls, InitialTables(p.cpflag))
  }

  function Plan(calls: seq<Call>, p: Params): LoopPlan
    requires ValidCalls(calls)
  {
    PhaseCycleIsLeastBound(EmittedTables(calls, p), 0);
    CheckLoop(PhaseCycle(EmittedTables(calls, p)), p.nt)
  }

  function BodyOf(calls: seq<Call>, ts: seq<Table>, plan: LoopPlan, p: Params, regs: seq<int>): seq<Line>
    requires ValidTables(ts) && ValidCalls(calls)
  {
    Scans(calls, ts, 0, plan.cycle, true, p, regs)
  }

  function LoopOf(calls: seq<Call>, ts: seq<Table>, plan: LoopPlan, p: Params, regs: seq<int>): seq<Line>
    requires ValidTables(ts) && ValidCalls(calls)
  {
    var body := BodyOf(calls, ts, plan, p, regs);
    if plan.loops == 0 || body == [] then []
    else [NscLoop(plan.loops)] + CloseLoop(body, p.nt)
  }

  function RestOf(calls: seq<Call>, ts: seq<Table>, plan: LoopPlan, p: Params, regs: seq<int>): seq<Line>
    requires ValidTables(ts) && ValidCalls(calls)
  {
    Scans(calls, ts, plan.cycle, plan.cycle + plan.rem, false, p, regs)
  }

  function TimeOf(calls: seq<Call>, ts: seq<Table>, plan: LoopPlan, p: Params, regs: seq<int>): real
    requires ValidTables(ts) && ValidCalls(calls)
  {
    (if plan.loops == 0 then 0.0 else plan.loops as real * LinesTime(BodyOf(calls, ts, plan, p, regs)))
    + LinesTime(RestOf(calls, ts, plan, p, regs))
  }

  function LoopText(calls: seq<Call>, p: Params, regs: seq<int>): seq<Line>
    requires ValidCalls(calls)
  {
    LoopOf(calls, EmittedTables(calls, p), Plan(calls, p), p, regs)
  }

  function Remainder(calls: seq<Call>, p: Params, regs: seq<int>): seq<Line>
    requires ValidCalls(calls)
  {
    RestOf(calls, EmittedTables(calls, p), Plan(calls, p), p, regs)
  }

  function ProgramText(calls: seq<Call>, p: Params, regs: seq<int>): seq<Line>
    requires ValidCalls(calls)
  {
    Header(p, regs) + LoopText(calls, p, regs) + Remainder(calls, p, regs)
  }

  /** The time the generator adds up; acquisition itself is not counted. */
  function LineTime(l: Line): real {
    match l
    case DelayElem(time) => time
    case PulseElem(width, _, blank, ringdown) => width + blank + ringdown
    case _ => 0.0
  }

  function LinesTime(ls: seq<Line>): real {
    if ls == [] then 0.0 else LinesTime(ls[..|ls| - 1]) + LineTime(ls[|ls| - 1])
  }

  /** The time createPS reports for one FID. */
  function ProgramTime(calls: seq<Call>, p: Params, regs: seq<int>): real
    requires ValidCalls(calls)
  {
    TimeOf(calls, EmittedTables(calls, p), Plan(calls, p), p, regs)
  }

  // ----- list facts ------------------------------------------------------------------------

  lemma {:induction false} LinesTimeConcat(a: seq<Line>, b: seq<Line>)
    ensures LinesTime(a + b) == LinesTime(a) + LinesTime(b)
  {
    if b == [] {
      assert a + b == a;
    } else {
      LinesTimeConcat(a, b[..|b| - 1]);
      assert (a + b)[..|a + b| - 1] == a + b[..|b| - 1];
    }
  }

  lemma SmallTimes()
    ensures LinesTime([]) == 0.0 && forall l: Line :: LinesTime([l]) == LineTime(l)
  {
    forall l: Line ensures LinesTime([l]) == LineTime(l) {
      assert [l][..0] == [];
    }
  }

  lemma {:induction false} LinesConcat(a: seq<Call>, b: seq<Call>, ts: seq<Table>, i: nat, p: Params, regs: seq<int>)
    requires ValidTables(ts) && ValidCalls(a) && ValidCalls(b) && ValidCalls(a + b)
    ensures TablesAfter(a + b, ts) == TablesAfter(b, TablesAfter(a, ts))
    ensures Lines(a + b, ts, i, p, regs) == Lines(a, ts, i, p, regs) + Lines(b, TablesAfter(a, ts), i, p, regs)
  {
    hide CallLines, CallTables, ValidTables;
    if a == [] {
      assert a + b == b;
    } else {
      assert (a + b)[1..] == a[1..] + b;
      LinesConcat(a[1..], b, CallTables(a[0], ts), i, p, regs);
    }
  }

  lemma ScanTime(calls: seq<Call>, ts: seq<Table>, i: nat, lead: bool, p: Params, regs: seq<int>)
    requires ValidTables(ts) && ValidCalls(calls)
    ensures LinesTime(ScanLines(calls, ts, i, lead, p, regs))
            == LinesTime(Lines(calls, ts, i, p, regs)) + LinesTime(TailLines(calls, ts, i, p, regs))
  {
    hide Lines, TailLines, RegisterOf, Quantise, LinesTime, ValidTables;
    SmallTimes();
    var l0 := [PhaseReset] + LeadLines(lead, p, regs);
    LinesTimeConcat(l0, Lines(calls, ts, i, p, regs));
    LinesTimeConcat(l0 + Lines(calls, ts, i, p, regs), TailLines(calls, ts, i, p, regs));
    LinesTimeConcat([PhaseReset], LeadLines(lead, p, regs));
  }

  // ----- every scan starts from the same tables ----------------------------------------------

  /** The values the sequence leaves in table t, if it sets that table. */
  function LastSet(calls: seq<Call>, t: nat): Option<seq<int>> {
    if calls == [] then None
    else
      match LastSet(calls[1..], t)
      case Some(vals) => Some(vals)
      case None => if calls[0].Settable? && calls[0].tab == t then Some(calls[0].vals) else None
  }

  lemma {:induction false} TablesAfterAt(calls: seq<Call>, ts: seq<Table>, t: nat)
    requires ValidTables(ts) && ValidCalls(calls) && t <= OPH
    ensures TablesAfter(calls, ts)[t].inUse == ts[t].inUse
    ensures TablesAfter(calls, ts)[t].phase
            == match LastSet(calls, t) case Some(v) => v case None => ts[t].phase
  {
    if calls != [] {
      TablesAfterAt(calls[1..], CallTables(calls[0], ts), t);
    }
  }

  lemma {:induction false} DryTablesAt(calls: seq<Call>, ts: seq<Table>, t: nat)
    requires ValidTables(ts) && ValidCalls(calls) && t <= OPH
    ensures DryTables(calls, ts)[t].phase
            == match LastSet(calls, t) case Some(v) => v case None => ts[t].phase
  {
    if calls != [] {
      DryTablesAt(calls[1..], DryCall(calls[0], ts), t);
    }
  }

  /** Running the sequence once more after the dry pass leaves the tables as the dry pass did. */
  lemma TablesSettled(calls: seq<Call>, p: Params)
    requires ValidCalls(calls)
    ensures TablesAfter(calls, EmittedTables(calls, p)) == EmittedTables(calls, p)
  {
    var f := EmittedTables(calls, p);
    var r := TablesAfter(calls, f);
    forall t | 0 <= t < |f| ensures r[t] == f[t] {
      TablesAfterAt(calls, f, t);
      DryTablesAt(calls, InitialTables(p.cpflag), t);
    }
  }
}
