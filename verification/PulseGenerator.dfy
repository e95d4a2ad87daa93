/** The generator itself (src/bpsg/b12funcs.c and createPS of src/bpsg/cps.c): the state is the
    output file, absent during the dry pass, the one element held back in `lastElem`, the phase
    tables, the power registers and the running time. */
module PulseGenerator {
  import opened Common
  import opened Phase
  import opened PulseText

  class Generator {
    const p: Params
    const tables: PhaseTables
    const powerVal: array<int>
    var powerVals: nat
    var psgFile: Option<seq<Line>>
    var lastElem: Option<Line>
    var totaltime: real
    var acqtriggers: bool
    var lIndex: nat

    ghost predicate Valid()
      reads this, tables, tables.table, powerVal
    {
      && tables.Valid()
      && powerVal.Length == POWER_REGISTERS
      && powerVals <= POWER_REGISTERS
      && forall k :: powerVals <= k < POWER_REGISTERS ==> powerVal[k] == UNUSED
    }

    ghost function Regs(): seq<int>
      reads this, powerVal
      requires powerVals <= powerVal.Length
    {
      powerVal[..powerVals]
    }

    ghost function Tables(): seq<Table>
      reads tables, tables.table
    {
      tables.table[..]
    }

    /** Everything written so far, with the element held back as its last line. */
    ghost function Stream(): seq<Line>
      reads this
    {
      var file := if psgFile.Some? then psgFile.value else [];
      if lastElem.Some? then file + [lastElem.value] else file
    }

    constructor (p: Params)
      ensures Valid() && this.p == p && fresh(tables) && fresh(tables.table) && fresh(powerVal)
      ensures psgFile == Some([]) && lastElem == None && totaltime == 0.0
    {
      this.p := p;
      tables := new PhaseTables();
      powerVal := new int[POWER_REGISTERS](_ => UNUSED);
      powerVals := 0;
      psgFile, lastElem, totaltime, acqtriggers, lIndex := Some([]), None, 0.0, false, 0;
    }

    method InitPowerVal()
      requires powerVal.Length == POWER_REGISTERS && tables.Valid()
      modifies this`powerVals, powerVal
      ensures Valid() && Regs() == [1000]
    {
      powerVals := 1;
      powerVal[0] := FULL_POWER;
      for i := 1 to POWER_REGISTERS
        invariant powerVals == 1 && powerVal[0] == FULL_POWER
        invariant forall k :: 1 <= k < i ==> powerVal[k] == UNUSED
      {
        powerVal[i] := UNUSED;
      }
    }

    method GetPowerRegister(amp: real) returns (reg: nat)
      requires Valid()
      ensures reg == RegisterOf(Regs(), Quantise(amp))
      ensures if Quantise(amp) in Regs() then reg < powerVals && powerVal[reg] == Quantise(amp) else reg == 0
      ensures forall j :: 0 <= j < reg ==> powerVal[j] != Quantise(amp)
    {
      var val := Quantise(amp);
      for i := 0 to powerVals
        invariant forall j :: 0 <= j < i ==> powerVal[j] != val
      {
        if val == powerVal[i] {
          assert Regs()[i] == val && forall j :: 0 <= j < i ==> Regs()[j] != val;
          return i;
        }
      }
      reg := 0;
    }

    /** `ok` is false where the source aborts. */
    method AddPowerVal(amp: real) returns (ok: bool)
      requires Valid()
      modifies this`powerVals, powerVal
      ensures Valid()
      ensures match AddPower(old(Regs()), Quantise(amp))
              case None => !ok && Regs() == old(Regs())
              case Some(regs) => ok && Regs() == regs
      ensures ok <==> Quantise(amp) in old(Regs()) || old(powerVals) < 4
      ensures Regs() == if !ok || Quantise(amp) in old(Regs()) || Quantise(amp) == -1 then old(Regs())
                        else old(Regs()) + [Quantise(amp)]
    {
      var val := Quantise(amp);
      var found := false;
      for i := 0 to POWER_REGISTERS
        invariant found <==> exists j :: 0 <= j < i && powerVal[j] == val
      {
        if val == powerVal[i] {
          found := true;
        }
      }
      assert powerVal[..] == Regs() + powerVal[powerVals..];
      assert found <==> val in powerVal[..];
      assert powerVals < POWER_REGISTERS ==> powerVal[powerVals] == UNUSED;
      ok := true;
      if !found {
        if powerVals < POWER_REGISTERS {
          powerVal[powerVals] := val;
          powerVals := powerVals + 1;
        } else {
          ok := false;
        }
      }
    }

    /** Writes the element held back, if any, and holds back the new one. */
    method Buffer(l: Line)
      requires psgFile.Some?
      modifies this`psgFile, this`lastElem
      ensures psgFile == Some(old(Stream())) && lastElem == Some(l)
    {
      if lastElem.Some? {
        psgFile := Some(psgFile.value + [lastElem.value]);
      }
      lastElem := Some(l);
    }

    method DelayElement(time: real)
      modifies this`psgFile, this`lastElem, this`totaltime
      ensures psgFile.Some? == old(psgFile.Some?)
      ensures old(psgFile.Some?) ==>
                && Stream() == old(Stream()) + DelayLines(time)
                && totaltime == old(totaltime) + LinesTime(DelayLines(time))
                && totaltime == old(totaltime) + (if time > 0.0 then time else 0.0)
                && (time > 0.0 || old(lastElem.Some?) ==> lastElem.Some?)
      ensures old(psgFile.None?) ==> totaltime == old(totaltime) && lastElem == old(lastElem)
    {
      if time <= 0.0 {
        return;
      }
      if psgFile.Some? {
        Buffer(DelayElem(time));
        totaltime := totaltime + time;
      }
    }

    method RgPulseElement(width: real, phase: nat, rg1: real, rg2: real)
      requires Valid() && phase <= OPH
      modifies this`psgFile, this`lastElem, this`totaltime, tables.table
      ensures Valid() && psgFile.Some? == old(psgFile.Some?)
      ensures old(psgFile.Some?) ==>
                && Stream() == old(Stream()) + PulseLines(width, phase, rg1, rg2, old(Tables()), lIndex)
                && totaltime == old(totaltime) + LinesTime(PulseLines(width, phase, rg1, rg2, old(Tables()), lIndex))
                && totaltime == old(totaltime) + (if width > 0.0 then width + rg1 + rg2 else 0.0)
                && Tables() == old(Tables())
                && (old(lastElem.Some?) ==> lastElem.Some?)
      ensures old(psgFile.None?) ==>
                && totaltime == old(totaltime) && lastElem == old(lastElem)
                && Tables() == DryCall(RgPulse(width, phase, rg1, rg2), old(Tables()))
                && tables.table[phase] == Table(old(tables.table[phase].inUse) || width > 0.0,
                                                old(tables.table[phase].phase))
                && forall t :: 0 <= t < tables.table.Length && t != phase ==> tables.table[t] == old(tables.table[t])
    {
      if width <= 0.0 {
        return;
      }
      if psgFile.Some? {
        var ph := tables.GetPhase(phase, lIndex);
        Buffer(PulseElem(width, ph, rg1, rg2));
        totaltime := totaltime + (width + rg1 + rg2);
      } else {
        tables.SetPhaseInUse(phase);
      }
    }

    method AcquireElement()
      requires Valid()
      modifies this`psgFile, this`lastElem, this`totaltime, this`acqtriggers
      ensures Valid() && acqtriggers && psgFile.Some? == old(psgFile.Some?)
      ensures old(psgFile.Some?) ==>
                && Stream() == old(Stream()) + AcquireLines(p.alfa, Tables(), lIndex)
                && totaltime == old(totaltime) + LinesTime(AcquireLines(p.alfa, Tables(), lIndex))
                && totaltime == old(totaltime) + (if p.alfa > 0.0 then p.alfa else 0.0)
                && lastElem.Some?
      ensures old(psgFile.None?) ==> totaltime == old(totaltime) && lastElem == old(lastElem)
    {
      acqtriggers := true;
      if psgFile.Some? {
        DelayElement(p.alfa);
        var rec := tables.GetRecPhase(lIndex);
        Buffer(AcquireElem(rec));
        LinesTimeConcat(DelayLines(p.alfa), [AcquireElem(rec)]);
      }
    }

    /** One call of the user's sequence, in the dry pass or the emitting one. */
    method Perform(c: Call) returns (ok: bool)
      requires Valid() && ValidCall(c)
      modifies this`psgFile, this`lastElem, this`totaltime, this`acqtriggers, this`powerVals, powerVal, tables.table
      ensures Valid() && psgFile.Some? == old(psgFile.Some?)
      ensures acqtriggers == (old(acqtriggers) || c.Acquire?)
      ensures old(psgFile.Some?) ==>
                && ok && Regs() == old(Regs())
                && Stream() == old(Stream()) + CallLines(c, old(Tables()), lIndex, p, Regs())
                && totaltime == old(totaltime) + LinesTime(CallLines(c, old(Tables()), lIndex, p, Regs()))
                && Tables() == CallTables(c, old(Tables()))
                && (old(lastElem.Some?) || c.Acquire? || c.RlPower? ==> lastElem.Some?)
      ensures old(psgFile.Some?) && c.Status? ==>
                Stream() == old(Stream())
                          + [StatusElem((c.state < |p.xm| && p.xm[c.state] == 'y')
                                        || (c.state > |p.xm| > 0 && p.xm[|p.xm| - 1] == 'y'))]
      ensures old(psgFile.None?) ==>
                && totaltime == old(totaltime) && lastElem == old(lastElem)
                && Tables() == DryCall(c, old(Tables()))
                && ok == DryPowers([c], old(Regs())).Some?
                && (ok ==> Regs() == DryPowers([c], old(Regs())).value)
    {
      hide PhaseAt, RegisterOf, Quantise, ValidTables, LinesTime;
      SmallTimes();
      ok := true;
      assert [c][1..] == [];
      match c {
        case Settable(tab, vals) => tables.SetTable(tab, vals);
        case Delay(time) => DelayElement(time);
        case Pulse(width, phase) =>
          if width > 0.0 {
            RgPulseElement(width, phase, p.rof1, p.rof2);
          }
        case RgPulse(width, phase, rg1, rg2) => RgPulseElement(width, phase, rg1, rg2);
        case Acquire => AcquireElement();
        case Status(state) =>
          if psgFile.Some? {
            Buffer(StatusElem(StatusOn(p.xm, state)));
          }
        case RlPower(amp) =>
          if psgFile.Some? {
            var index := GetPowerRegister(amp);
            Buffer(PowerElem(index));
          } else {
            ok := AddPowerVal(amp);
          }
        case Offset(freq) =>
          if psgFile.Some? {
            Buffer(OffsetElem(freq));
          }
      }
    }

    /** pulsesequence() with no file: finds the tables and the powers in use. */
    method DryPass(calls: seq<Call>) returns (ok: bool)
      requires Valid() && ValidCalls(calls) && psgFile.None?
      modifies this`psgFile, this`lastElem, this`totaltime, this`acqtriggers, this`powerVals, powerVal, tables.table
      ensures Valid() && psgFile.None? && totaltime == old(totaltime) && lastElem == old(lastElem)
      ensures ok == DryPowers(calls, old(Regs())).Some?
      ensures ok ==> Regs() == DryPowers(calls, old(Regs())).value
      ensures ok ==> Tables() == DryTables(calls, old(Tables()))
    {
      ok := true;
      if calls != [] {
        DryPowersStep(calls[0], Regs());
        ok := Perform(calls[0]);
        if ok {
          ok := DryPass(calls[1..]);
        }
      }
    }

    lemma DryPowersStep(c: Call, regs: seq<int>)
      requires |regs| <= POWER_REGISTERS
      ensures DryPowers([c], regs)
              == if c.RlPower? then AddPower(regs, Quantise(c.amp)) else Some(regs)
    {
      assert [c][1..] == [];
    }

    /** What EmitPass and EmitScan need of Perform. */
    method PerformEmit(c: Call)
      requires Valid() && ValidCall(c) && psgFile.Some?
      modifies this`psgFile, this`lastElem, this`totaltime, this`acqtriggers, this`powerVals, powerVal, tables.table
      ensures Valid() && psgFile.Some? && Regs() == old(Regs())
      ensures acqtriggers == (old(acqtriggers) || c.Acquire?)
      ensures Stream() == old(Stream()) + CallLines(c, old(Tables()), lIndex, p, old(Regs()))
      ensures totaltime == old(totaltime) + LinesTime(CallLines(c, old(Tables()), lIndex, p, old(Regs())))
      ensures Tables() == CallTables(c, old(Tables()))
      ensures old(lastElem.Some?) || c.Acquire? || c.RlPower? ==> lastElem.Some?
    {
      var _ := Perform(c);
    }

    /** pulsesequence() with the file: appends the sequence's elements. */
    method EmitPass(calls: seq<Call>)
      requires Valid() && ValidCalls(calls) && psgFile.Some?
      modifies this`psgFile, this`lastElem, this`totaltime, this`acqtriggers, this`powerVals, powerVal, tables.table
      ensures Valid() && psgFile.Some? && Regs() == old(Regs())
      ensures Stream() == old(Stream()) + Lines(calls, old(Tables()), lIndex, p, Regs())
      ensures totaltime == old(totaltime) + LinesTime(Lines(calls, old(Tables()), lIndex, p, Regs()))
      ensures Tables() == TablesAfter(calls, old(Tables()))
      ensures acqtriggers == (old(acqtriggers) || exists k :: 0 <= k < |calls| && calls[k].Acquire?)
      ensures old(lastElem.Some?) || HasAcquire(calls) ==> lastElem.Some?
    {
      hide CallLines, PhaseAt, CallTables, LinesTime, ValidTables;
      SmallTimes();
      if calls != [] {
        ghost var first := CallLines(calls[0], Tables(), lIndex, p, Regs());
        ghost var rest := Lines(calls[1..], CallTables(calls[0], Tables()), lIndex, p, Regs());
        HasAcquireStep(calls);
        LinesTimeConcat(first, rest);
        ghost var all, s0 := Lines(calls, Tables(), lIndex, p, Regs()), Stream();
        assert all == first + rest;
        PerformEmit(calls[0]);
        assert Stream() == s0 + first;
        EmitPass(calls[1..]);
        assert Stream() == s0 + first + rest == s0 + (first + rest);
      }
    }

    lemma HasAcquireStep(calls: seq<Call>)
      requires calls != []
      ensures HasAcquire(calls) == (calls[0].Acquire? || HasAcquire(calls[1..]))
    {
      if HasAcquire(calls) && !calls[0].Acquire? {
        var k :| 0 <= k < |calls| && calls[k].Acquire?;
        assert calls[1..][k - 1].Acquire?;
      }
      if HasAcquire(calls[1..]) {
        var k :| 0 <= k < |calls[1..]| && calls[1..][k].Acquire?;
        assert calls[k + 1].Acquire?;
      }
    }

    method StartScan(lead: bool)
      requires Valid() && psgFile.Some? && lastElem.None?
      modifies this`psgFile, this`lastElem, this`totaltime, this`acqtriggers, this`powerVals, powerVal, tables.table
      ensures Valid() && psgFile.Some? && !acqtriggers && Regs() == old(Regs()) && Tables() == old(Tables())
      ensures Stream() == old(Stream()) + ([PhaseReset] + LeadLines(lead, p, old(Regs())))
      ensures totaltime == old(totaltime)
    {
      ghost var s0 := Stream();
      acqtriggers := false;
      psgFile := Some(psgFile.value + [PhaseReset]);
      assert Stream() == s0 + [PhaseReset];
      if lead {
        PerformEmit(RlPower(p.tpwrf));
      }
    }

    /** One scan: PHASE_RESET, the elements, and the acquisition the sequence may have left out.
        The last element stays held back. */
    method EmitScan(calls: seq<Call>, lead: bool)
      requires Valid() && ValidCalls(calls) && psgFile.Some? && lastElem.None?
      modifies this`psgFile, this`lastElem, this`totaltime, this`acqtriggers, this`powerVals, powerVal, tables.table
      ensures Valid() && psgFile.Some? && lastElem.Some? && Regs() == old(Regs())
      ensures Stream() == old(Stream()) + ScanLines(calls, old(Tables()), lIndex, lead, p, old(Regs()))
      ensures totaltime == old(totaltime) + LinesTime(ScanLines(calls, old(Tables()), lIndex, lead, p, old(Regs())))
      ensures Tables() == TablesAfter(calls, old(Tables()))
    {
      ScanTime(calls, Tables(), lIndex, lead, p, Regs());
      ghost var s0, ts, regs := Stream(), Tables(), Regs();
      StartScan(lead);
      ghost var s1 := Stream();
      EmitPass(calls);
      ghost var s2 := Stream();
      if !acqtriggers {
        PerformEmit(Acquire);
      }
      Join(s0, s1, s2, Stream(), [PhaseReset] + LeadLines(lead, p, regs), Lines(calls, ts, lIndex, p, regs),
           TailLines(calls, ts, lIndex, p, regs));
    }

    lemma Join(s0: seq<Line>, s1: seq<Line>, s2: seq<Line>, s3: seq<Line>, a: seq<Line>, b: seq<Line>, c: seq<Line>)
      requires s1 == s0 + a && s2 == s1 + b && s3 == s2 + c
      ensures s3 == s0 + (a + b + c)
    {
    }

    method EndElems()
      requires psgFile.Some?
      modifies this`psgFile, this`lastElem
      ensures psgFile == Some(old(Stream())) && lastElem == None
    {
      if lastElem.Some? {
        psgFile := Some(psgFile.value + [lastElem.value]);
      }
      lastElem := None;
    }

    method Reset()
      requires powerVal.Length == POWER_REGISTERS && tables.table.Length == OPH + 1
      modifies this`powerVals, powerVal, tables.table
      ensures Valid() && Regs() == [FULL_POWER] && Tables() == InitialTables(p.cpflag)
    {
      tables.InitPhaseTables(p.cpflag);
      InitPowerVal();
    }

    /** createPS down to the dry pass, with the file set aside. */
    method DryRun(calls: seq<Call>) returns (ok: bool)
      requires powerVal.Length == POWER_REGISTERS && tables.table.Length == OPH + 1
      requires ValidCalls(calls) && lastElem.None?
      modifies this, powerVal, tables.table
      ensures ok <==> Registers(calls, p.tpwrf).Some?
      ensures totaltime == old(totaltime) && psgFile.None?
      ensures ok ==> Valid() && lastElem.None? && Tables() == EmittedTables(calls, p)
                     && Regs() == Registers(calls, p.tpwrf).value
    {
      psgFile := None;
      Reset();
      assert ([RlPower(p.tpwrf)] + calls)[1..] == calls;
      ok := AddPowerVal(p.tpwrf);
      if ok {
        ok := DryPass(calls);
      }
    }

    method PrintHeader(file: seq<Line>)
      requires Valid()
      modifies this`psgFile
      ensures psgFile == Some(file + Header(p, Regs()))
      ensures psgFile == Some(file + ([NumberPoints(p.np), SpectrometerFrequency(p.sfrq), NumberOfScans(p.nt),
                                       SpectralWidth(p.sw), Powers(Regs()), PulseElements, Rattn(p.rattn)]
                                      + if p.mpspower.Some? then [MpsPower(p.mpspower.value)] else []))
    {
      var head := [NumberPoints(p.np), SpectrometerFrequency(p.sfrq), NumberOfScans(p.nt), SpectralWidth(p.sw),
                   Powers(powerVal[..powerVals]), PulseElements, Rattn(p.rattn)];
      if p.mpspower.Some? {
        head := head + [MpsPower(p.mpspower.value)];
      }
      assert head == Header(p, Regs());
      psgFile := Some(file + head);
    }

    /** Between two scans: nothing is held back, and the text and the time are those of the scans
        [lo, lIndex) after `base` and `t0`. */
    ghost predicate Between(calls: seq<Call>, lo: nat, lead: bool, base: seq<Line>, t0: real, ts: seq<Table>,
                            regs: seq<int>)
      reads this, tables, tables.table, powerVal
    {
      && Valid() && Tables() == ts && Regs() == regs && psgFile.Some? && lastElem.None?
      && ValidCalls(calls) && lo <= lIndex
      && psgFile.value == base + Scans(calls, ts, lo, lIndex, lead, p, regs)
      && totaltime == t0 + LinesTime(Scans(calls, ts, lo, lIndex, lead, p, regs))
    }

    /** As Between, but the last scan's last element is still held back. */
    ghost predicate Holding(calls: seq<Call>, lo: nat, lead: bool, base: seq<Line>, t0: real, ts: seq<Table>,
                            regs: seq<int>)
      reads this, tables, tables.table, powerVal
    {
      && Valid() && Tables() == ts && Regs() == regs && psgFile.Some? && lastElem.Some?
      && ValidCalls(calls) && lo <= lIndex
      && Stream() == base + Scans(calls, ts, lo, lIndex + 1, lead, p, regs)
      && totaltime == t0 + LinesTime(Scans(calls, ts, lo, lIndex + 1, lead, p, regs))
    }

    lemma ScansStep(calls: seq<Call>, ts: seq<Table>, lo: nat, i: nat, lead: bool, regs: seq<int>, base: seq<Line>)
      requires ValidTables(ts) && ValidCalls(calls) && lo <= i
      ensures var before, scan := Scans(calls, ts, lo, i, lead, p, regs), ScanLines(calls, ts, i, lead, p, regs);
              && base + Scans(calls, ts, lo, i + 1, lead, p, regs) == base + before + scan
              && LinesTime(Scans(calls, ts, lo, i + 1, lead, p, regs)) == LinesTime(before) + LinesTime(scan)
    {
      var before, scan := Scans(calls, ts, lo, i, lead, p, regs), ScanLines(calls, ts, i, lead, p, regs);
      assert Scans(calls, ts, lo, i + 1, lead, p, regs) == before + scan;
      LinesTimeConcat(before, scan);
      Append(base, before, scan);
    }

    method NextScan(calls: seq<Call>, ghost lo: nat, lead: bool, ghost base: seq<Line>, ghost t0: real,
                    ghost ts: seq<Table>, ghost regs: seq<int>)
      requires Between(calls, lo, lead, base, t0, ts, regs) && TablesAfter(calls, ts) == ts
      modifies this`psgFile, this`lastElem, this`totaltime, this`acqtriggers, this`powerVals, powerVal, tables.table
      ensures Holding(calls, lo, lead, base, t0, ts, regs)
    {
      ScansStep(calls, ts, lo, lIndex, lead, regs, base);
      EmitScan(calls, lead);
    }

    method FlushScan(ghost calls: seq<Call>, ghost lo: nat, ghost lead: bool, ghost base: seq<Line>, ghost t0: real,
                     ghost ts: seq<Table>, ghost regs: seq<int>)
      requires Holding(calls, lo, lead, base, t0, ts, regs)
      modifies this`psgFile, this`lastElem, this`lIndex
      ensures Between(calls, lo, lead, base, t0, ts, regs) && lIndex == old(lIndex) + 1
    {
      hide Scans, LinesTime;
      EndElems();
      lIndex := lIndex + 1;
    }

    lemma BetweenStart(calls: seq<Call>, lead: bool, t0: real, ts: seq<Table>, regs: seq<int>)
      requires Valid() && Tables() == ts && Regs() == regs && psgFile.Some? && lastElem.None? && ValidCalls(calls)
      requires totaltime == t0
      ensures Between(calls, lIndex, lead, psgFile.value, t0, ts, regs)
    {
    }

    /** One phase cycle of scans, the last of them closing the loop. */
    method EmitCycle(calls: seq<Call>, cycle: nat, ghost base: seq<Line>, ghost ts: seq<Table>, ghost regs: seq<int>)
      requires psgFile == Some(base) && cycle > 0 && totaltime == 0.0 && lastElem.None?
      requires Valid() && Tables() == ts && Regs() == regs && ValidCalls(calls) && TablesAfter(calls, ts) == ts
      modifies this`psgFile, this`lastElem, this`totaltime, this`acqtriggers, this`lIndex, this`powerVals, powerVal,
               tables.table
      ensures Valid() && psgFile.Some? && lastElem.None? && Regs() == regs && Tables() == ts
      ensures var body := Scans(calls, ts, 0, cycle, true, p, regs);
              |body| > 0 && psgFile.value == base + CloseLoop(body, p.nt) && totaltime == LinesTime(body)
    {
      lIndex := 0;
      BetweenStart(calls, true, 0.0, ts, regs);
      hide Scans, LinesTime, Between, Holding;
      while lIndex + 1 < cycle
        invariant lIndex < cycle && Between(calls, 0, true, base, 0.0, ts, regs)
      {
        NextScan(calls, 0, true, base, 0.0, ts, regs);
        FlushScan(calls, 0, true, base, 0.0, ts, regs);
      }
      LastLoopScan(calls, base, ts, regs);
    }

    /** The last scan of the loop: NSC_ENDLOOP goes out before the element held back. */
    method LastLoopScan(calls: seq<Call>, ghost base: seq<Line>, ghost ts: seq<Table>, ghost regs: seq<int>)
      requires Between(calls, 0, true, base, 0.0, ts, regs) && TablesAfter(calls, ts) == ts
      modifies this`psgFile, this`lastElem, this`totaltime, this`acqtriggers, this`powerVals, powerVal, tables.table
      ensures Valid() && psgFile.Some? && lastElem.None? && Regs() == regs && Tables() == ts
      ensures var body := Scans(calls, ts, 0, lIndex + 1, true, p, regs);
              && |body| > 0 && psgFile.value == base + CloseLoop(body, p.nt)
              && totaltime == LinesTime(body)
    {
      NextScan(calls, 0, true, base, 0.0, ts, regs);
      ghost var body := Scans(calls, ts, 0, lIndex + 1, true, p, regs);
      assert |ScanLines(calls, ts, lIndex, true, p, regs)| > 0;
      CloseLoopOf(base, body, psgFile.value, lastElem.value, p.nt);
      psgFile := Some(psgFile.value + [NscEndloop(p.nt)]);
      EndElems();
    }

    /** The scans left over; they do not start with the transmitter power. */
    method EmitRemainder(calls: seq<Call>, plan: LoopPlan, ghost base: seq<Line>, ghost ts: seq<Table>,
                         ghost regs: seq<int>)
      requires psgFile == Some(base)
      requires Valid() && Tables() == ts && Regs() == regs && lastElem.None? && ValidCalls(calls)
      requires TablesAfter(calls, ts) == ts
      modifies this`psgFile, this`lastElem, this`totaltime, this`acqtriggers, this`lIndex, this`powerVals, powerVal,
               tables.table
      ensures psgFile == Some(base + Scans(calls, ts, plan.cycle, plan.cycle + plan.rem, false, p, regs))
      ensures totaltime
              == old(totaltime) + LinesTime(Scans(calls, ts, plan.cycle, plan.cycle + plan.rem, false, p, regs))
    {
      ghost var t0 := totaltime;
      lIndex := plan.cycle;
      BetweenStart(calls, false, t0, ts, regs);
      hide Scans, LinesTime, Holding, ValidCalls, TablesAfter;
      while lIndex < plan.cycle + plan.rem
        invariant plan.cycle <= lIndex <= plan.cycle + plan.rem
        invariant Between(calls, plan.cycle, false, base, t0, ts, regs)
      {
        NextScan(calls, plan.cycle, false, base, t0, ts, regs);
        FlushScan(calls, plan.cycle, false, base, t0, ts, regs);
      }
    }

    /** createPS for an ordinary acquisition.  `ok` is false where the source aborts because the
        sequence needs too many powers. */
    method CreatePS(calls: seq<Call>) returns (ok: bool)
      requires powerVal.Length == POWER_REGISTERS && tables.table.Length == OPH + 1
      requires ValidCalls(calls) && psgFile.Some? && lastElem.None? && totaltime == 0.0
      modifies this, powerVal, tables.table
      ensures ok <==> Registers(calls, p.tpwrf).Some?
      ensures ok ==> psgFile == Some(old(psgFile.value) + ProgramText(calls, p, Registers(calls, p.tpwrf).value))
      ensures ok ==> totaltime == ProgramTime(calls, p, Registers(calls, p.tpwrf).value)
    {
      var file := psgFile.value;
      ok := DryRun(calls);
      if ok {
        PrintHeader(file);
        EmitScans(calls, file + Header(p, Regs()), Regs());
        ghost var regs := Registers(calls, p.tpwrf).value;
        Append(file, Header(p, regs), LoopText(calls, p, regs));
        Append(file, Header(p, regs) + LoopText(calls, p, regs), Remainder(calls, p, regs));
      }
    }

    /** createPS from chkLoop on. */
    method EmitScans(calls: seq<Call>, ghost base: seq<Line>, ghost regs: seq<int>)
      requires Valid() && Regs() == regs && psgFile == Some(base) && lastElem.None? && ValidCalls(calls)
      requires Tables() == EmittedTables(calls, p) && totaltime == 0.0
      modifies this`psgFile, this`lastElem, this`totaltime, this`acqtriggers, this`lIndex, this`powerVals, powerVal,
               tables.table
      ensures psgFile == Some(base + LoopText(calls, p, regs) + Remainder(calls, p, regs))
      ensures totaltime == ProgramTime(calls, p, regs)
    {
      ghost var ts := Tables();
      TablesSettled(calls, p);
      PhaseCycleIsLeastBound(ts, 0);
      var maxPh := tables.MaxPhaseCycle();
      var plan := CheckLoop(maxPh, p.nt);
      EmitPlanned(calls, plan, base, ts, regs);
    }

    method EmitPlanned(calls: seq<Call>, plan: LoopPlan, ghost base: seq<Line>, ghost ts: seq<Table>,
                       ghost regs: seq<int>)
      requires psgFile == Some(base) && lastElem.None? && totaltime == 0.0 && (plan.loops > 0 ==> plan.cycle > 0)
      requires Valid() && Tables() == ts && Regs() == regs && ValidCalls(calls) && TablesAfter(calls, ts) == ts
      modifies this`psgFile, this`lastElem, this`totaltime, this`acqtriggers, this`lIndex, this`powerVals, powerVal,
               tables.table
      ensures psgFile == Some(base + LoopOf(calls, ts, plan, p, regs) + RestOf(calls, ts, plan, p, regs))
      ensures totaltime == TimeOf(calls, ts, plan, p, regs)
    {
      hide Scans, LinesTime, CloseLoop, TablesAfter, ValidCalls;
      if plan.loops > 0 {
        EmitLoop(calls, plan, base, ts, regs);
      }
      assert plan.loops == 0 ==> base == base + LoopOf(calls, ts, plan, p, regs);
      EmitRemainder(calls, plan, base + LoopOf(calls, ts, plan, p, regs), ts, regs);
    }

    method EmitLoop(calls: seq<Call>, plan: LoopPlan, ghost base: seq<Line>, ghost ts: seq<Table>, ghost regs: seq<int>)
      requires psgFile == Some(base) && lastElem.None? && totaltime == 0.0 && plan.loops > 0 && plan.cycle > 0
      requires Valid() && Tables() == ts && Regs() == regs && ValidCalls(calls) && TablesAfter(calls, ts) == ts
      modifies this`psgFile, this`lastElem, this`totaltime, this`acqtriggers, this`lIndex, this`powerVals, powerVal,
               tables.table
      ensures Valid() && Tables() == ts && Regs() == regs && lastElem.None?
      ensures psgFile == Some(base + LoopOf(calls, ts, plan, p, regs))
      ensures totaltime == plan.loops as real * LinesTime(BodyOf(calls, ts, plan, p, regs))
    {
      hide Scans, LinesTime, CloseLoop, TablesAfter, ValidCalls;
      psgFile := Some(psgFile.value + [NscLoop(plan.loops)]);
      EmitCycle(calls, plan.cycle, base + [NscLoop(plan.loops)], ts, regs);
      totaltime := totaltime * plan.loops as real;
      Append(base, [NscLoop(plan.loops)], CloseLoop(BodyOf(calls, ts, plan, p, regs), p.nt));
    }

    lemma Append(a: seq<Line>, b: seq<Line>, c: seq<Line>)
      ensures a + b + c == a + (b + c)
    {
    }

    /** Splitting a stream before its held-back last line is CloseLoop. */
    lemma CloseLoopOf(pre: seq<Line>, body: seq<Line>, file: seq<Line>, last: Line, nt: nat)
      requires |body| > 0 && file + [last] == pre + body
      ensures file + [NscEndloop(nt)] + [last] == pre + CloseLoop(body, nt)
    {
      var k := |body| - 1;
      assert last == (file + [last])[|file|] == body[k];
      assert file == (file + [last])[..|file|] == (pre + body)[..|pre| + k] == pre + body[..k];
      assert body[k..] == [last];
    }
  }
}
