/** What B12proc posts: the records that src/b12proc/b12funcs.c adds to the processing queue while
    main of src/b12proc/b12proc.c works through the instructions of an experiment. */
module AcquisitionRecords {
  import opened Common
  import opened Arithmetic
  import AcquisitionRequests

  /** Records carry the number of their element; ExpDone is the message that ends the run. */
  datatype Event = Wfid(ix: nat) | Wbs | WexpWait(ix: nat, done: DoneCode) | Werr(ix: nat, done: DoneCode) | ExpDone

  predicate Terminal(e: Event) {
    e.WexpWait? || e.Werr?
  }

  /** The instructions that matter here. */
  datatype Cmd = Start(elem: nat) | Done(ix: nat) | Mtune | MpsTune | Other

  /** What the run meets.  Its looks at the Code file, counted from 0, fail from number `missing` on,
      and Code_halt is there or not; the board may fail to start, and so may the data of an element;
      the tuning data is there at the looks in tuneData. */
  datatype World = World(missing: nat, halt: bool, boardOk: bool, dataOk: set<nat>, polls: nat, tuneData: set<nat>)

  /** MTUNE steps through frequencies; MPSTUNE has its own data. */
  datatype Tuning = NoTuning | Steps | Mps

  predicate TunedBy(tuning: Tuning, cmds: seq<Cmd>) {
    (tuning == Steps ==> Mtune in cmds) && (tuning == Mps ==> MpsTune in cmds)
  }

  /** The record of an experiment whose Code file is gone. */
  function GoneRecord(halt: bool, ix: nat): Event {
    if halt then WexpWait(ix, ExpComplete) else Werr(ix, ExpAborted)
  }

  const MPS_TRIES := 100

  class Session {
    const world: World
    const arraydim: nat
    const nt: nat
    const msecPerCT: real
    const points: nat
    var looks: nat
    var haltFile: bool
    var mapped: bool
    var log: seq<Event>

    constructor (w: World, dim: nat, scans: nat, msec: real, np: nat)
      ensures world == w && arraydim == dim && nt == scans && points == np
      ensures looks == 0 && haltFile == w.halt && !mapped && log == []
    {
      world, arraydim, nt, msecPerCT, points := w, dim, scans, msec, np;
      looks, haltFile, mapped, log := 0, w.halt, false, [];
    }

    /** Nothing has gone wrong yet. */
    ghost predicate Going()
      reads this
    {
      looks <= world.missing && haltFile == world.halt
    }

    /** The run ends here: one record for element ix, which says why. */
    ghost predicate Stopped(before: seq<Event>, ix: nat)
      reads this
    {
      && mapped && |log| == |before| + 1 && log[..|before|] == before
      && (if looks > world.missing then log[|before|] == GoneRecord(world.halt, ix)
          else log[|before|] == Werr(ix, HardError))
    }

    /** access of the Code file. */
    method CodeGone() returns (gone: bool)
      modifies this`looks
      ensures looks == old(looks) + 1 && gone == (old(looks) >= world.missing)
    {
      gone := looks >= world.missing;
      looks := looks + 1;
    }

    method Post(e: Event)
      modifies this`log, this`mapped
      ensures log == old(log) + [e] && mapped
    {
      mapped := true;
      log := log + [e];
    }

    method AbortExp(ix: nat)
      modifies this`log, this`mapped, this`haltFile
      ensures mapped && !haltFile && log == old(log) + [GoneRecord(old(haltFile), ix)]
      ensures log == old(log) + [if old(haltFile) then WexpWait(ix, ExpComplete) else Werr(ix, ExpAborted)]
    {
      if haltFile {
        Post(WexpWait(ix, ExpComplete));
        haltFile := false;
      } else {
        Post(Werr(ix, ExpAborted));
      }
    }

    /** Looks once, and ends the run when the Code file is gone. */
    method Look(ix: nat) returns (gone: bool)
      requires Going()
      modifies this
      ensures gone ==> looks > world.missing && Stopped(old(log), ix)
      ensures !gone ==> Going() && log == old(log) && mapped == old(mapped)
      ensures looks == old(looks) + 1
    {
      gone := CodeGone();
      if gone {
        AbortExp(ix);
      }
    }

    /** Looks about once a second while a scan takes its time, and once when it should be over. */
    method WaitForScan(elem: nat, msec: real) returns (failed: bool)
      requires Going()
      modifies this
      ensures failed ==> looks > world.missing && Stopped(old(log), elem)
      ensures !failed ==> Going() && log == old(log) && mapped == old(mapped)
      ensures !failed ==> looks == old(looks) + if msec.Floor < 2000 then 1 else msec.Floor / 1000
      ensures old(looks) < looks <= old(looks) + if msec.Floor < 2000 then 1 else msec.Floor / 1000
    {
      var waitTime := msec;
      while waitTime.Floor / 1000 > 1
        invariant Going() && log == old(log) && mapped == old(mapped)
        invariant (waitTime == msec || waitTime.Floor >= 1000) && looks >= old(looks)
        invariant looks - old(looks) + (if waitTime.Floor < 2000 then 1 else waitTime.Floor / 1000)
                  == if msec.Floor < 2000 then 1 else msec.Floor / 1000
        decreases waitTime.Floor
      {
        failed := Look(elem);
        if failed {
          return;
        }
        OneSecondLess(waitTime);
        waitTime := waitTime - 1000.0;
      }
      failed := Look(elem);
    }

    /** Waits for the scans and reads the data. */
    method GetData(elem: nat, scans: nat, msec: real) returns (failed: bool)
      requires Going()
      modifies this
      ensures failed ==> Stopped(old(log), elem) && (looks <= world.missing ==> elem !in world.dataOk)
      ensures !failed ==> Going() && log == old(log) && mapped == old(mapped) && elem in world.dataOk
      ensures !failed ==>
                looks == old(looks) + scans * (if msec.Floor < 2000 then 1 else msec.Floor / 1000) + world.polls
      ensures looks <= old(looks) + scans * (if msec.Floor < 2000 then 1 else msec.Floor / 1000) + world.polls
      ensures scans > 0 ==> looks > old(looks)
    {
      var ct := 0;
      ghost var each := if msec.Floor < 2000 then 1 else msec.Floor / 1000;
      while ct < scans
        invariant ct <= scans && Going() && log == old(log) && mapped == old(mapped)
        invariant looks == old(looks) + ct * each && (ct > 0 ==> looks > old(looks))
      {
        Distribute(ct, 1, each);
        ct := ct + 1;
        MulAtMost(ct, scans, each);
        failed := WaitForScan(elem, msec);
        if failed {
          return;
        }
      }
      for poll := 0 to world.polls
        invariant Going() && log == old(log) && mapped == old(mapped) && looks == old(looks) + scans * each + poll
        invariant scans > 0 ==> looks > old(looks)
      {
        failed := Look(elem);
        if failed {
          return;
        }
      }
      failed := elem !in world.dataOk;
      if failed {
        Post(Werr(elem, HardError));
      }
    }

    /** PULSEPROG_START. */
    method StartElem(elem: nat) returns (stop: bool)
      requires Going()
      modifies this
      ensures stop ==> Stopped(old(log), if looks > world.missing then elem else 0)
      ensures stop && looks <= world.missing ==> elem == 1 && !world.boardOk
      ensures !stop ==> Going() && log == old(log) && (elem == 1 ==> world.boardOk)
    {
      if elem == 1 && !world.boardOk {
        Post(Werr(0, HardError));
        return true;
      }
      stop := Look(elem);
    }

    /** PULSEPROG_DONE, for the element under way. */
    method DoneElem(ix: nat) returns (stop: bool)
      requires Going()
      modifies this
      ensures stop ==> Stopped(old(log), ix) && (looks <= world.missing ==> ix !in world.dataOk)
      ensures !stop ==> Going() && mapped && ix in world.dataOk
      ensures !stop ==> log == old(log) + [if ix == arraydim then WexpWait(ix, ExpComplete) else Wfid(ix)]
    {
      stop := GetData(ix, nt, msecPerCT);
      if !stop {
        if ix == arraydim {
          Post(WexpWait(ix, ExpComplete));
        } else {
          Post(Wfid(ix));
        }
      }
    }

    /** Tuning records, one record that ends the run and says why. */
    ghost predicate Tuned(before: seq<Event>, tuning: Tuning)
      reads this
    {
      && mapped && |log| > |before| && log[..|before|] == before
      && (forall j :: |before| <= j < |log| - 1 ==> log[j] == Wbs)
      && Terminal(log[|log| - 1]) && TuningReason(log[|log| - 1], world, looks, tuning)
    }

    /** How often one round of MTUNE looks: at every point, while its scan goes on, and at the end. */
    ghost function Round(): nat {
      points + (if msecPerCT.Floor < 2000 then 1 else msecPerCT.Floor / 1000) + world.polls
    }

    method TuneRound() returns (failed: bool)
      requires Going()
      modifies this
      ensures failed ==> Tuned(old(log), Steps) && |log| == |old(log)| + 1
      ensures old(looks) < looks <= old(looks) + Round()
      ensures !failed ==> Going() && log == old(log) + [Wbs] && looks == old(looks) + Round()
    {
      for incr := 0 to points
        invariant Going() && log == old(log) && looks == old(looks) + incr
      {
        failed := Look(1);
        if failed {
          return;
        }
      }
      failed := GetData(1, 1, msecPerCT);
      if !failed {
        Post(Wbs);
      }
    }

    /** MTUNE: over and over, until the Code file is gone or the data fails; every round but the last posts its
        data, once. */
    method TuneLoop()
      requires Going()
      modifies this
      ensures Tuned(old(log), Steps)
      ensures var n := |log| - |old(log)| - 1;
              n * Round() < looks - old(looks) <= (n + 1) * Round()
    {
      hide TuningReason;
      ghost var rounds: nat := 0;
      while true
        invariant Going() && |log| == |old(log)| + rounds && log[..|old(log)|] == old(log)
        invariant forall j :: |old(log)| <= j < |log| ==> log[j] == Wbs
        invariant looks == old(looks) + rounds * Round()
        decreases world.missing - looks
      {
        Distribute(rounds, 1, Round());
        var failed := TuneRound();
        if failed {
          return;
        }
        rounds := rounds + 1;
      }
    }

    /** getMpsData: waits, then looks for the tuning data a hundred times. */
    method GetMpsData(waits: nat) returns (failed: bool)
      requires Going() && waits > 0
      modifies this
      ensures failed ==> mapped && log == old(log) + [GoneRecord(world.halt, 1)]
      ensures failed && looks <= world.missing ==> NeverCame(world, looks) && looks == old(looks) + waits + 100
      ensures !failed ==> Going() && log == old(log) && mapped == old(mapped) && looks > old(looks)
    {
      for count := 0 to waits
        invariant Going() && log == old(log) && mapped == old(mapped) && looks == old(looks) + count
      {
        failed := Look(1);
        if failed {
          return;
        }
      }
      for count := 0 to MPS_TRIES
        invariant Going() && log == old(log) && mapped == old(mapped) && looks == old(looks) + waits + count
        invariant forall i: nat :: looks - count <= i < looks ==> i !in world.tuneData
      {
        if looks in world.tuneData {
          return false;
        }
        failed := Look(1);
        if failed {
          return;
        }
      }
      AbortExp(1);
      failed := true;
    }

    /** MPSTUNE. */
    method MpsLoop(waits: nat)
      requires Going() && waits > 0
      modifies this
      ensures Tuned(old(log), Mps)
    {
      while true
        invariant Going() && |log| >= |old(log)| && log[..|old(log)|] == old(log)
        invariant forall j :: |old(log)| <= j < |log| ==> log[j] == Wbs
        decreases world.missing - looks
      {
        mapped := true;
        var failed := GetMpsData(waits);
        if failed {
          return;
        }
        Post(Wbs);
      }
    }

    /** endComm reads the mapped experiment. */
    method EndComm()
      requires mapped
      modifies this`log
      ensures log == old(log) + [ExpDone]
    {
      log := log + [ExpDone];
    }

    /** Where a run of main stands: k - 1 elements are saved, or its record is posted. */
    ghost predicate Standing(k: nat, open: bool, over: bool, tuning: Tuning)
      reads this
    {
      if over then mapped && Verdict(log, world, arraydim, looks, tuning)
      else
        && Going() && tuning == NoTuning && 1 <= k <= arraydim && log == Saved(k - 1)
        && (open || k > 1 ==> world.boardOk) && forall e: nat :: 1 <= e < k ==> e in world.dataOk
    }

    /** main: however the run goes, one record says how it ended, and then the one message that it
        has ended. */
    method RunExperiment(cmds: seq<Cmd>, waits: nat) returns (ghost tuning: Tuning)
      requires looks == 0 && haltFile == world.halt && log == [] && waits > 0
      requires arraydim >= 1 && Numbered(cmds, 1, arraydim, false)
      modifies this
      ensures (tuning == Steps ==> Mtune in cmds) && (tuning == Mps ==> MpsTune in cmds)
      ensures log != [] && log[|log| - 1] == ExpDone && Verdict(log[..|log| - 1], world, arraydim, looks, tuning)
      ensures |log| >= 2 && forall j :: 0 <= j < |log| - 2 ==> log[j] == if tuning == NoTuning then Wfid(j + 1) else Wbs
      ensures var elem, last := if tuning == NoTuning then |log| - 1 else 1, log[|log| - 2];
              && (looks > world.missing && world.halt ==> last == WexpWait(elem, ExpComplete))
              && (looks > world.missing && !world.halt ==> last == Werr(elem, ExpAborted))
              && (looks <= world.missing ==>
                    match tuning
                    case NoTuning =>
                      || (last == Werr(0, HardError) && elem == 1 && !world.boardOk)
                      || (last == Werr(elem, HardError) && elem !in world.dataOk)
                      || (last == WexpWait(elem, ExpComplete) && elem == arraydim && world.boardOk
                          && forall e: nat :: 1 <= e <= arraydim ==> e in world.dataOk)
                    case Steps => last == Werr(1, HardError) && 1 !in world.dataOk
                    case Mps =>
                      && last == (if world.halt then WexpWait(1, ExpComplete) else Werr(1, ExpAborted))
                      && looks >= 100 && forall i: nat :: looks - 100 <= i < looks ==> i !in world.tuneData)
    {
      tuning := NoTuning;
      var gone := Look(1);
      if !gone {
        tuning := RunAll(cmds, waits);
      }
      ghost var done := log;
      EndComm();
      assert log[..|log| - 1] == done;
      VerdictIs(done, world, arraydim, looks, tuning);
    }

    method RunAll(cmds: seq<Cmd>, waits: nat) returns (ghost tuning: Tuning)
      requires Going() && log == [] && waits > 0
      requires arraydim >= 1 && Numbered(cmds, 1, arraydim, false)
      modifies this
      ensures TunedBy(tuning, cmds)
      ensures mapped && Verdict(log, world, arraydim, looks, tuning)
    {
      var i := 0;
      ghost var k: nat, open, over := 1, false, false;
      tuning := NoTuning;
      while i < |cmds|
        invariant i <= |cmds| && Standing(k, open, over, tuning)
        invariant if over then OnlyOther(cmds[i..]) else Numbered(cmds[i..], k, arraydim, open)
        invariant TunedBy(tuning, cmds)
        decreases |cmds| - i
      {
        assert cmds[i..][0] == cmds[i] && cmds[i..][1..] == cmds[i + 1..];
        var stop;
        stop, k, open, over, tuning := Instruction(cmds[i], waits, cmds[i..], k, open, over, tuning);
        if stop {
          return;
        }
        i := i + 1;
      }
    }

    /** One instruction, the first of those to go. */
    method Instruction(c: Cmd, waits: nat, ghost cs: seq<Cmd>, ghost k: nat, ghost open: bool, ghost over: bool,
                       ghost tuning: Tuning)
        returns (stop: bool, ghost k': nat, ghost open': bool, ghost over': bool, ghost tuning': Tuning)
      requires waits > 0 && arraydim >= 1 && cs != [] && c == cs[0] && Standing(k, open, over, tuning)
      requires if over then OnlyOther(cs) else Numbered(cs, k, arraydim, open)
      modifies this
      ensures tuning' == tuning || TunedBy(tuning', [c])
      ensures stop ==> mapped && Verdict(log, world, arraydim, looks, tuning')
      ensures !stop ==> Standing(k', open', over', tuning')
      ensures !stop ==> if over' then OnlyOther(cs[1..]) else Numbered(cs[1..], k', arraydim, open')
    {
      stop, k', open', over', tuning' := false, k, open, over, tuning;
      match c {
        case Other =>
        case Start(elem) =>
          stop := StartElem(elem);
          open' := true;
        case Done(ix) =>
          stop := DoneElem(ix);
          open', over', k' := false, ix == arraydim, k + 1;
        case Mtune =>
          TuneLoop();
          over', tuning' := true, Steps;
        case MpsTune =>
          MpsLoop(waits);
          over', tuning' := true, Mps;
      }
    }
  }

  lemma OneSecondLess(x: real)
    requires x.Floor >= 2000
    ensures (x - 1000.0).Floor == x.Floor - 1000 && (x.Floor - 1000) / 1000 == x.Floor / 1000 - 1
  {
    assert x.Floor as real - 1000.0 <= x - 1000.0 < x.Floor as real - 1000.0 + 1.0;
  }

  /** The elements 1 .. k. */
  function Saved(k: nat): seq<Event> {
    seq(k, j requires 0 <= j < k => Wfid(j + 1))
  }

  predicate OnlyOther(cmds: seq<Cmd>) {
    forall j :: 0 <= j < |cmds| ==> cmds[j] == Other
  }

  /** Elements k .. n, each started and done, the last instruction but for others; or a tuning run in
      place of all of them. */
  predicate Numbered(cmds: seq<Cmd>, k: nat, n: nat, open: bool)
    decreases |cmds|
  {
    if cmds == [] then false
    else
      match cmds[0]
      case Other => Numbered(cmds[1..], k, n, open)
      case Start(elem) => !open && elem == k <= n && Numbered(cmds[1..], k, n, true)
      case Done(ix) =>
        open && ix == k <= n && (if k == n then OnlyOther(cmds[1..]) else Numbered(cmds[1..], k + 1, n, false))
      case Mtune => k == 1 && OnlyOther(cmds[1..])
      case MpsTune => k == 1 && OnlyOther(cmds[1..])
  }

  /** The records of a run that is over.  Of all but the last, none says that the run has ended: they
      are the elements saved, in order, or tuning data.  The last says so: the Code file was gone, and
      it is for the element under way; or the board failed, or that element's data; or all are saved. */
  ghost predicate Verdict(log: seq<Event>, w: World, n: nat, looks: nat, tuning: Tuning) {
    && log != [] && Terminal(log[|log| - 1])
    && if tuning != NoTuning then
         && (forall j :: 0 <= j < |log| - 1 ==> log[j] == Wbs)
         && TuningReason(log[|log| - 1], w, looks, tuning)
       else
         && |log| <= n && log[..|log| - 1] == Saved(|log| - 1)
         && Reason(log[|log| - 1], |log|, w, n, looks)
  }

  /** A hundred looks, one after the other, found no tuning data. */
  ghost predicate NeverCame(w: World, looks: nat) {
    looks >= MPS_TRIES && forall i: nat :: looks - MPS_TRIES <= i < looks ==> i !in w.tuneData
  }

  /** The Code file is gone; or the data of MTUNE failed; or that of MPSTUNE never came, which is told as if
      the Code file were gone. */
  ghost predicate TuningReason(last: Event, w: World, looks: nat, tuning: Tuning) {
    if looks > w.missing then last == GoneRecord(w.halt, 1)
    else if tuning == Mps then last == GoneRecord(w.halt, 1) && NeverCame(w, looks)
    else last == Werr(1, HardError) && 1 !in w.dataOk
  }

  ghost predicate Reason(last: Event, elem: nat, w: World, n: nat, looks: nat) {
    if looks > w.missing then last == GoneRecord(w.halt, elem)
    else
      || (last == Werr(0, HardError) && elem == 1 && !w.boardOk)
      || (last == Werr(elem, HardError) && elem !in w.dataOk)
      || (last == WexpWait(elem, ExpComplete) && elem == n && w.boardOk
          && forall e: nat :: 1 <= e <= n ==> e in w.dataOk)
  }

  lemma VerdictIs(done: seq<Event>, w: World, n: nat, looks: nat, tuning: Tuning)
    requires Verdict(done, w, n, looks, tuning)
    ensures done != [] && forall j :: 0 <= j < |done| - 1 ==> done[j] == if tuning == NoTuning then Wfid(j + 1) else Wbs
    ensures var elem, last := if tuning == NoTuning then |done| else 1, done[|done| - 1];
            && (looks > w.missing && w.halt ==> last == WexpWait(elem, ExpComplete))
            && (looks > w.missing && !w.halt ==> last == Werr(elem, ExpAborted))
            && (looks <= w.missing ==>
                  match tuning
                  case NoTuning =>
                    || (last == Werr(0, HardError) && elem == 1 && !w.boardOk)
                    || (last == Werr(elem, HardError) && elem !in w.dataOk)
                    || (last == WexpWait(elem, ExpComplete) && elem == n && w.boardOk
                        && forall e: nat :: 1 <= e <= n ==> e in w.dataOk)
                  case Steps => last == Werr(1, HardError) && 1 !in w.dataOk
                  case Mps =>
                    && last == (if w.halt then WexpWait(1, ExpComplete) else Werr(1, ExpAborted))
                    && looks >= 100 && forall i: nat :: looks - 100 <= i < looks ==> i !in w.tuneData)
  {
    if tuning == NoTuning {
      forall j | 0 <= j < |done| - 1 ensures done[j] == Wfid(j + 1) {
        assert done[j] == done[..|done| - 1][j] == Saved(|done| - 1)[j];
      }
    }
  }

  /** The code of that record is the one that the handshake's own account gives, for the same file. */
  lemma SameCode(s: AcquisitionRequests.State, ix: nat)
    requires s.phase == AcquisitionRequests.Lost
    ensures var looked := AcquisitionRequests.Apply(s, AcquisitionRequests.LookForHalt);
            var posted := AcquisitionRequests.Apply(looked, AcquisitionRequests.Post).posted;
            && posted == s.posted + [GoneRecord(s.halt, ix).done]
            && GoneRecord(s.halt, ix) == if s.halt then WexpWait(ix, ExpComplete) else Werr(ix, ExpAborted)
  {
  }

  function Count(log: seq<Event>, kind: Event -> bool): nat {
    if log == [] then 0 else Count(log[..|log| - 1], kind) + if kind(log[|log| - 1]) then 1 else 0
  }

  lemma {:induction false} CountNone(log: seq<Event>, kind: Event -> bool)
    requires forall j :: 0 <= j < |log| ==> !kind(log[j])
    ensures Count(log, kind) == 0
  {
    if log != [] { CountNone(log[..|log| - 1], kind); }
  }

  predicate Message(e: Event) {
    e == ExpDone
  }

  /** Of the records of a run that is over, only the last says so, and none is the message. */
  lemma OnlyLastEnds(done: seq<Event>, w: World, n: nat, looks: nat, tuning: Tuning, j: nat)
    requires Verdict(done, w, n, looks, tuning) && j < |done|
    ensures !Message(done[j]) && (Terminal(done[j]) <==> j == |done| - 1)
  {
    hide Reason;
    if j < |done| - 1 && tuning == NoTuning {
      assert done[j] == done[..|done| - 1][j] == Saved(|done| - 1)[j];
    }
  }

  lemma CountLast(log: seq<Event>, kind: Event -> bool)
    requires log != [] && forall j :: 0 <= j < |log| - 1 ==> !kind(log[j])
    ensures Count(log, kind) == if kind(log[|log| - 1]) then 1 else 0
  {
    CountNone(log[..|log| - 1], kind);
  }

  lemma CountMore(log: seq<Event>, kind: Event -> bool)
    requires log != [] && !kind(log[|log| - 1])
    ensures Count(log, kind) == Count(log[..|log| - 1], kind)
  {
  }

  /** A run posts exactly one record that ends it, then exactly one expdone. */
  lemma OneEndOneMessage(log: seq<Event>, w: World, n: nat, looks: nat, tuning: Tuning)
    requires log != [] && log[|log| - 1] == ExpDone && Verdict(log[..|log| - 1], w, n, looks, tuning)
    ensures Count(log, Terminal) == 1 && Count(log, Message) == 1
    ensures |log| >= 2 && Terminal(log[|log| - 2])
  {
    var done := log[..|log| - 1];
    assert done != [];
    hide Verdict, Count;
    forall j | 0 <= j < |done| ensures !Message(log[j]) && (Terminal(log[j]) <==> j == |done| - 1) {
      OnlyLastEnds(done, w, n, looks, tuning, j);
      assert done[j] == log[j];
    }
    CountLast(done, Terminal);
    CountLast(log, Message);
    CountMore(log, Terminal);
  }
}
