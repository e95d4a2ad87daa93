/** lockit and unlockit of src/expproc/statfuncs.c as a protocol of atomic file-system steps, run by
    any number of processes that share one lock path and have an id path each. */
module FileLock {
  datatype Path = Lock | Id(pid: nat)

  /** What a file holds: the id path written into it and the time at which it expires. */
  datatype Content = Blank | Info(owner: nat, expire: int)

  /** Where a process stands: the next step of lockit, of unlockit, or between the two. */
  datatype Pc =
    | Idle | Held
    | CheckId | CheckLock | StatFirst | Create | Write
    | Try | StatRetry | ReadExpire | Check | BreakLock | BreakId
    | CheckHeld | ReadLock | UnlinkId | UnlinkLock | UnlinkOwn

  /** lockid is the id path last read from the lock file. */
  datatype Proc = Proc(pc: Pc, timeout: int, expire: int, lockid: nat, cnt: nat)

  datatype State = State(names: map<Path, nat>, files: seq<Content>, now: int, procs: seq<Proc>)

  /** A step of process p may go wrong: creation fails, or link works but reports failure. */
  datatype Action =
    | LockIt(p: nat, timeout: nat)
    | UnlockIt(p: nat)
    | Run(p: nat, odd: bool)
    | Crash(p: nat)
    | Tick(seconds: nat)

  const TRIES := 60

  // ----- the file system ----------------------------------------------------------------------------------

  function Linked(names: map<Path, nat>, inode: nat): set<Path> {
    set x | x in names && names[x] == inode
  }

  /** stat's st_nlink is 2. */
  predicate TwoLinks(s: State, p: nat) {
    Id(p) in s.names && |Linked(s.names, s.names[Id(p)])| == 2
  }

  function Unlink(s: State, x: Path): State {
    s.(names := s.names - {x})
  }

  predicate Named(s: State, x: Path) {
    x in s.names && s.names[x] < |s.files|
  }

  // ----- one step -------------------------------------------------------------------------------------------

  function At(s: State, p: nat, pc: Pc): State
    requires p < |s.procs|
  {
    s.(procs := s.procs[p := s.procs[p].(pc := pc)])
  }

  predicate Enabled(s: State, a: Action) {
    match a
    case LockIt(p, _) => p < |s.procs| && (s.procs[p].pc == Idle || s.procs[p].pc == Held)
    case UnlockIt(p) => p < |s.procs| && s.procs[p].pc == Held
    case Run(p, _) => p < |s.procs| && s.procs[p].pc != Idle && s.procs[p].pc != Held
    case Crash(p) => p < |s.procs| && s.procs[p].pc != Write
    case Tick(_) => true
  }

  /** A waiter whose remembered expiry has passed breaks a lock that somebody holds, or removes the id
      file of a process that is using it. */
  predicate Breaks(s: State, a: Action) {
    && a.Run? && a.p < |s.procs|
    && var w := s.procs[a.p];
       || (w.pc == BreakLock && exists q :: 0 <= q < |s.procs| && Holding(s.procs[q].pc))
       || (w.pc == BreakId && w.lockid < |s.procs| && (HasId(s.procs[w.lockid].pc) || Holding(s.procs[w.lockid].pc)))
  }

  function Apply(s: State, a: Action): State
    requires Enabled(s, a)
  {
    match a
    case LockIt(p, timeout) =>
      s.(procs := s.procs[p := Proc(CheckId, s.now + timeout, -1, 0, 0)])
    case UnlockIt(p) => At(s, p, CheckHeld)
    case Run(p, odd) => Step(s, p, odd)
    case Crash(p) => At(s, p, Idle)
    case Tick(seconds) => s.(now := s.now + seconds)
  }

  function Step(s: State, p: nat, odd: bool): State
    requires p < |s.procs|
  {
    match s.procs[p].pc
    case CheckId => At(s, p, if Id(p) in s.names then CheckLock else Create)
    case CheckLock => At(s, p, if Lock in s.names then StatFirst else Try)
    case StatFirst => At(s, p, if TwoLinks(s, p) then Held else Try)
    case Create =>
      if odd then At(s, p, Idle)
      else At(s.(names := s.names[Id(p) := |s.files|], files := s.files + [Blank]), p, Write)
    case Write =>
      if Named(s, Id(p)) then
        At(s.(files := s.files[s.names[Id(p)] := Info(p, s.procs[p].timeout)]), p, Try)
      else At(s, p, Try)
    case Try =>
      if Lock !in s.names && Id(p) in s.names then
        At(s.(names := s.names[Lock := s.names[Id(p)]]), p, if odd then StatRetry else Held)
      else At(s, p, StatRetry)
    case StatRetry =>
      At(s, p, if TwoLinks(s, p) then Held else if s.procs[p].expire == -1 then ReadExpire else Check)
    case ReadExpire => At(ReadLockFile(s, p, true), p, Check)
    case Check =>
      var w := s.procs[p];
      if w.expire > 0 then At(s, p, if w.expire < s.now then BreakLock else Try)
      else
        s.(procs := s.procs[p := w.(cnt := w.cnt + 1, pc := if w.cnt + 1 < TRIES then Try else Idle)])
    case BreakLock => At(Unlink(s, Lock), p, BreakId)
    case BreakId => At(Unlink(s, Id(s.procs[p].lockid)), p, Try)
    case CheckHeld => At(s, p, if Lock in s.names then ReadLock else UnlinkOwn)
    case ReadLock => At(ReadLockFile(s, p, false), p, UnlinkId)
    case UnlinkId => At(Unlink(s, Id(s.procs[p].lockid)), p, UnlinkLock)
    case UnlinkLock => At(Unlink(s, Lock), p, UnlinkOwn)
    case UnlinkOwn => At(Unlink(s, Id(p)), p, Idle)
    case _ => s
  }

  /** Reads the lock file's id path and, for a waiter, its expiry: 0 when it cannot be opened. */
  function ReadLockFile(s: State, p: nat, waiting: bool): State
    requires p < |s.procs|
  {
    var w := s.procs[p];
    if Named(s, Lock) && s.files[s.names[Lock]].Info? then
      var c := s.files[s.names[Lock]];
      s.(procs := s.procs[p := w.(lockid := c.owner, expire := if waiting then c.expire else w.expire)])
    else s.(procs := s.procs[p := w.(expire := if waiting then 0 else w.expire)])
  }

  /** A waiter reads once when the lock expires and whose it is; 0 when there is nothing to be read. */
  lemma WaiterReads(s: State, p: nat, odd: bool)
    requires p < |s.procs| && s.procs[p].pc == ReadExpire
    ensures var w, t := s.procs[p], Step(s, p, odd);
            && t.names == s.names && t.files == s.files
            && t.procs[p] == if Named(s, Lock) && s.files[s.names[Lock]].Info? then
                               w.(pc := Check, lockid := s.files[s.names[Lock]].owner,
                                  expire := s.files[s.names[Lock]].expire)
                             else w.(pc := Check, expire := 0)
  {
  }

  /** A waiter that could read an expiry tries again until it has passed, and then breaks the lock; one that
      could not gives up with the sixtieth try. */
  lemma WaiterDecides(s: State, p: nat, odd: bool)
    requires p < |s.procs| && s.procs[p].pc == Check
    ensures var w, t := s.procs[p], Step(s, p, odd);
            && t.names == s.names && t.files == s.files
            && (w.expire > 0 ==> t.procs[p] == w.(pc := if s.now > w.expire then BreakLock else Try))
            && (w.expire <= 0 ==> t.procs[p] == w.(cnt := w.cnt + 1, pc := if w.cnt + 1 == 60 then Idle else Try)
                                  || w.cnt >= 60)
  {
  }

  // ----- the invariant --------------------------------------------------------------------------------------

  predicate Holding(pc: Pc) {
    pc == Held || pc == CheckHeld || pc == ReadLock || pc == UnlinkId || pc == UnlinkLock
  }

  /** Between the making of the id file and the end of lockit. */
  predicate HasId(pc: Pc) {
    pc == CheckLock || pc == StatFirst || pc == Write || pc == Try || pc == StatRetry || pc == ReadExpire || pc == Check
    || pc == BreakLock || pc == BreakId
  }

  /** The id files are distinct, and each names its process once it is written. */
  ghost predicate IdFiles(s: State) {
    && (forall p: nat :: Id(p) in s.names ==> Named(s, Id(p)) && p < |s.procs| && OwnFile(s, p))
    && (forall p: nat, q: nat :: Id(p) in s.names && Id(q) in s.names && p != q ==> s.names[Id(p)] != s.names[Id(q)])
  }

  ghost predicate OwnFile(s: State, p: nat)
    requires Named(s, Id(p)) && p < |s.procs|
  {
    var c := s.files[s.names[Id(p)]];
    if c == Blank then s.procs[p].pc == Write else c.owner == p
  }

  /** The process whose id file the lock path names. */
  ghost predicate Owns(s: State, p: nat) {
    Named(s, Lock) && s.files[s.names[Lock]].Info? && s.files[s.names[Lock]].owner == p
  }

  /** The lock path and p's id path are links to one file. */
  predicate SameFile(s: State, p: nat) {
    Id(p) in s.names && Lock in s.names && s.names[Lock] == s.names[Id(p)]
  }

  ghost predicate LockFile(s: State) {
    Lock in s.names ==> Named(s, Lock) && s.files[s.names[Lock]].Info?
  }

  ghost predicate ProcOk(s: State, p: nat)
    requires p < |s.procs|
  {
    var w := s.procs[p];
    && (Holding(w.pc) ==> Owns(s, p))
    && (Holding(w.pc) && w.pc != UnlinkLock ==> SameFile(s, p))
    && (HasId(w.pc) ==> Id(p) in s.names)
    && (w.pc == Create ==> Id(p) !in s.names)
    && (w.pc == UnlinkId ==> w.lockid == p)
  }

  ghost predicate Inv(s: State) {
    IdFiles(s) && LockFile(s) && forall p :: 0 <= p < |s.procs| ==> ProcOk(s, p)
  }

  /** A second link to an id file can only be the lock path. */
  lemma TwoLinksIsLocked(s: State, p: nat)
    requires IdFiles(s)
    ensures TwoLinks(s, p) <==> SameFile(s, p)
  {
    if Id(p) in s.names {
      var l := Linked(s.names, s.names[Id(p)]);
      forall x | x in l ensures x == Lock || x == Id(p) {
        if x.Id? { assert s.names[Id(x.pid)] == s.names[Id(p)]; }
      }
      assert Id(p) in l;
      if Lock in l {
        assert l == {Lock, Id(p)};
      } else {
        assert l == {Id(p)};
      }
    }
  }

  // ----- every step keeps it ------------------------------------------------------------------------------------

  /** A step that changes one process only. */
  lemma ProcStep(s: State, p: nat, w: Proc)
    requires Inv(s) && p < |s.procs| && s.procs[p].pc != Write
    requires ProcOk(s.(procs := s.procs[p := w]), p)
    ensures Inv(s.(procs := s.procs[p := w]))
  {
    var t := s.(procs := s.procs[p := w]);
    assert IdFiles(t) by {
      forall q: nat | Id(q) in t.names ensures Named(t, Id(q)) && q < |t.procs| && OwnFile(t, q) {
        assert OwnFile(s, q);
      }
    }
    forall q | 0 <= q < |t.procs| ensures ProcOk(t, q) {
      assert ProcOk(s, q);
    }
  }

  lemma CreateStep(s: State, p: nat)
    requires Inv(s) && p < |s.procs| && s.procs[p].pc == Create
    ensures Inv(Step(s, p, false))
  {
    var t := Step(s, p, false);
    assert ProcOk(s, p);
    assert IdFiles(t) by {
      forall q: nat | Id(q) in t.names ensures Named(t, Id(q)) && q < |t.procs| && OwnFile(t, q) {
        if q != p { assert OwnFile(s, q); }
      }
    }
    forall q | 0 <= q < |t.procs| ensures ProcOk(t, q) {
      assert ProcOk(s, q);
    }
  }

  lemma WriteStep(s: State, p: nat)
    requires Inv(s) && p < |s.procs| && s.procs[p].pc == Write
    ensures Inv(Step(s, p, false)) && Step(s, p, true) == Step(s, p, false)
  {
    var t := Step(s, p, false);
    assert ProcOk(s, p) && Named(s, Id(p)) && OwnFile(s, p);
    var i := s.names[Id(p)];
    assert IdFiles(t) by {
      forall q: nat | Id(q) in t.names ensures Named(t, Id(q)) && q < |t.procs| && OwnFile(t, q) {
        if q != p { assert OwnFile(s, q); }
      }
    }
    forall q | 0 <= q < |t.procs| ensures ProcOk(t, q) {
      assert ProcOk(s, q);
    }
  }

  /** link succeeds: the lock path now names p's id file. */
  lemma LinkStep(s: State, p: nat, odd: bool)
    requires Inv(s) && p < |s.procs| && s.procs[p].pc == Try && Lock !in s.names
    ensures Inv(Step(s, p, odd))
  {
    var t := Step(s, p, odd);
    assert ProcOk(s, p) && Named(s, Id(p)) && OwnFile(s, p);
    assert IdFiles(t) by {
      forall q: nat | Id(q) in t.names ensures Named(t, Id(q)) && q < |t.procs| && OwnFile(t, q) {
        assert OwnFile(s, q);
      }
    }
    forall q | 0 <= q < |t.procs| ensures ProcOk(t, q) {
      assert ProcOk(s, q);
    }
  }

  /** A process removes its own id file. */
  lemma UnlinkIdStep(s: State, p: nat, pc: Pc)
    requires Inv(s) && p < |s.procs| && s.procs[p].pc != Write
    requires pc == Idle || (pc == UnlinkLock && Owns(s, p))
    ensures Inv(At(Unlink(s, Id(p)), p, pc))
  {
    var t := At(Unlink(s, Id(p)), p, pc);
    UnlinkIdFiles(s, p, pc);
    hide IdFiles;
    assert Lock in t.names <==> Lock in s.names;
    forall q | 0 <= q < |t.procs| ensures ProcOk(t, q) {
      assert ProcOk(s, q);
    }
  }

  lemma UnlinkIdFiles(s: State, p: nat, pc: Pc)
    requires IdFiles(s) && p < |s.procs| && s.procs[p].pc != Write
    ensures IdFiles(At(Unlink(s, Id(p)), p, pc))
  {
    var t := At(Unlink(s, Id(p)), p, pc);
    forall q: nat | Id(q) in t.names ensures Named(t, Id(q)) && q < |t.procs| && OwnFile(t, q) {
      assert OwnFile(s, q);
    }
  }

  lemma UnlinkLockStep(s: State, p: nat)
    requires Inv(s) && p < |s.procs| && s.procs[p].pc == UnlinkLock
    ensures Inv(Step(s, p, false)) && Step(s, p, true) == Step(s, p, false)
  {
    var t := Step(s, p, false);
    assert ProcOk(s, p);
    assert IdFiles(t) by {
      forall q: nat | Id(q) in t.names ensures Named(t, Id(q)) && q < |t.procs| && OwnFile(t, q) {
        assert OwnFile(s, q);
      }
    }
    forall q | 0 <= q < |t.procs| ensures ProcOk(t, q) {
      assert ProcOk(s, q);
    }
  }

  /** A lock that nobody holds is broken. */
  lemma BreakLockStep(s: State, p: nat)
    requires Inv(s) && p < |s.procs| && s.procs[p].pc == BreakLock && !Breaks(s, Run(p, false))
    ensures Inv(Step(s, p, false)) && Step(s, p, true) == Step(s, p, false)
  {
    var t := Step(s, p, false);
    assert IdFiles(t) by {
      forall q: nat | Id(q) in t.names ensures Named(t, Id(q)) && q < |t.procs| && OwnFile(t, q) {
        assert OwnFile(s, q);
      }
    }
    forall q | 0 <= q < |t.procs| ensures ProcOk(t, q) {
      assert ProcOk(s, q);
      assert !Holding(s.procs[q].pc);
    }
  }

  /** The id file that goes with it is removed. */
  lemma BreakIdStep(s: State, p: nat)
    requires Inv(s) && p < |s.procs| && s.procs[p].pc == BreakId && !Breaks(s, Run(p, false))
    ensures Inv(Step(s, p, false)) && Step(s, p, true) == Step(s, p, false)
  {
    var t, o := Step(s, p, false), s.procs[p].lockid;
    assert o != p;
    assert IdFiles(t) by {
      forall q: nat | Id(q) in t.names ensures Named(t, Id(q)) && q < |t.procs| && OwnFile(t, q) {
        assert OwnFile(s, q);
      }
    }
    hide IdFiles;
    assert Lock in t.names <==> Lock in s.names;
    forall q | 0 <= q < |t.procs| ensures ProcOk(t, q) {
      assert ProcOk(s, q);
    }
  }

  lemma OwnerFromLinks(s: State, p: nat)
    requires Inv(s) && p < |s.procs| && s.procs[p].pc != Write && TwoLinks(s, p)
    ensures Owns(s, p) && SameFile(s, p)
  {
    TwoLinksIsLocked(s, p);
    assert OwnFile(s, p);
  }

  lemma RunKeeps(s: State, p: nat, odd: bool)
    requires Inv(s) && p < |s.procs| && s.procs[p].pc != Idle && s.procs[p].pc != Held
    requires !Breaks(s, Run(p, odd))
    ensures Inv(Step(s, p, odd))
  {
    hide TwoLinks, Linked;
    assert ProcOk(s, p);
    var w := s.procs[p];
    if w.pc == Create && !odd {
      CreateStep(s, p);
    } else if w.pc == Write {
      WriteStep(s, p);
    } else if w.pc == Try && Lock !in s.names {
      LinkStep(s, p, odd);
    } else if w.pc == UnlinkId {
      UnlinkIdStep(s, p, UnlinkLock);
    } else if w.pc == UnlinkOwn {
      UnlinkIdStep(s, p, Idle);
    } else if w.pc == UnlinkLock {
      UnlinkLockStep(s, p);
    } else if w.pc == BreakLock {
      BreakLockStep(s, p);
    } else if w.pc == BreakId {
      BreakIdStep(s, p);
    } else {
      Looks(s, p, odd);
    }
  }

  lemma Looks(s: State, p: nat, odd: bool)
    requires Inv(s) && p < |s.procs|
    requires s.procs[p].pc !in {Idle, Held, Write, UnlinkId, UnlinkOwn, UnlinkLock, BreakLock, BreakId}
    requires (s.procs[p].pc == Create ==> odd) && (s.procs[p].pc == Try ==> Lock in s.names)
    ensures Inv(Step(s, p, odd))
  {
    hide Step, Inv, TwoLinks;
    if TwoLinks(s, p) { OwnerFromLinks(s, p); }
    LocalStep(s, p, odd);
  }

  /** The steps that only look. */
  lemma LocalStep(s: State, p: nat, odd: bool)
    requires Inv(s) && p < |s.procs|
    requires s.procs[p].pc !in {Idle, Held, Write, UnlinkId, UnlinkOwn, UnlinkLock, BreakLock, BreakId}
    requires (s.procs[p].pc == Create ==> odd) && (s.procs[p].pc == Try ==> Lock in s.names)
    requires TwoLinks(s, p) ==> Owns(s, p) && SameFile(s, p)
    ensures Inv(Step(s, p, odd))
  {
    hide IdFiles, TwoLinks;
    var t := Step(s, p, odd);
    assert ProcOk(s, p);
    assert t == s.(procs := s.procs[p := t.procs[p]]);
    ProcStep(s, p, t.procs[p]);
  }

  lemma OtherKeeps(s: State, a: Action)
    requires Inv(s) && Enabled(s, a) && !a.Run?
    ensures Inv(Apply(s, a))
  {
    match a
    case LockIt(p, timeout) => LockItKeeps(s, p, timeout);
    case UnlockIt(p) => UnlockItKeeps(s, p);
    case Crash(p) => CrashKeeps(s, p);
    case Tick(seconds) => TickKeeps(s, seconds);
  }

  lemma LockItKeeps(s: State, p: nat, timeout: nat)
    requires Inv(s) && Enabled(s, LockIt(p, timeout))
    ensures Inv(Apply(s, LockIt(p, timeout)))
  {
    hide IdFiles, LockFile, Owns, SameFile;
    ProcStep(s, p, Proc(CheckId, s.now + timeout, -1, 0, 0));
  }

  lemma UnlockItKeeps(s: State, p: nat)
    requires Inv(s) && Enabled(s, UnlockIt(p))
    ensures Inv(Apply(s, UnlockIt(p)))
  {
    hide IdFiles, LockFile;
    assert ProcOk(s, p);
    ProcStep(s, p, s.procs[p].(pc := CheckHeld));
  }

  lemma CrashKeeps(s: State, p: nat)
    requires Inv(s) && Enabled(s, Crash(p))
    ensures Inv(Apply(s, Crash(p)))
  {
    hide IdFiles, LockFile, Owns, SameFile;
    ProcStep(s, p, s.procs[p].(pc := Idle));
  }

  lemma TickKeeps(s: State, seconds: nat)
    requires Inv(s)
    ensures Inv(s.(now := s.now + seconds))
  {
    var t := s.(now := s.now + seconds);
    assert IdFiles(t) by {
      forall q: nat | Id(q) in t.names ensures Named(t, Id(q)) && q < |t.procs| && OwnFile(t, q) {
        assert OwnFile(s, q);
      }
    }
    forall q | 0 <= q < |t.procs| ensures ProcOk(t, q) {
      assert ProcOk(s, q);
    }
  }

  // ----- mutual exclusion ---------------------------------------------------------------------------------------

  /** No files, and n processes outside lockit. */
  function Initial(n: nat, now: int): State {
    State(map[], [], now, seq(n, _ => Proc(Idle, 0, -1, 0, 0)))
  }

  /** The actions can be taken one after the other ... */
  predicate Runs(s: State, actions: seq<Action>)
    decreases |actions|
  {
    actions == [] || (Enabled(s, actions[0]) && Runs(Apply(s, actions[0]), actions[1..]))
  }

  function After(s: State, actions: seq<Action>): State
    requires Runs(s, actions)
    decreases |actions|
  {
    if actions == [] then s else After(Apply(s, actions[0]), actions[1..])
  }

  /** ... and no lock is broken that somebody holds, nor an id file removed that is in use. */
  predicate Unbroken(s: State, actions: seq<Action>)
    requires Runs(s, actions)
    decreases |actions|
  {
    actions == [] || (!Breaks(s, actions[0]) && Unbroken(Apply(s, actions[0]), actions[1..]))
  }

  /** The remembered expiry of a waiter is never found to have passed. */
  predicate Unexpired(s: State, actions: seq<Action>)
    requires Runs(s, actions)
    decreases |actions|
  {
    actions == [] ||
    (var a := actions[0];
     && !(a.Run? && s.procs[a.p].pc == Check && 0 < s.procs[a.p].expire < s.now)
     && Unexpired(Apply(s, a), actions[1..]))
  }

  predicate NobodyBreaks(s: State) {
    forall p :: 0 <= p < |s.procs| ==> s.procs[p].pc != BreakLock && s.procs[p].pc != BreakId
  }

  /** Such runs are among them. */
  lemma {:induction false} UnexpiredIsUnbroken(s: State, actions: seq<Action>)
    requires NobodyBreaks(s) && Runs(s, actions) && Unexpired(s, actions)
    ensures Unbroken(s, actions)
    decreases |actions|
  {
    hide TwoLinks, ReadLockFile, Unlink;
    if actions != [] {
      StillNobody(s, actions[0]);
      UnexpiredIsUnbroken(Apply(s, actions[0]), actions[1..]);
    }
  }

  lemma StillNobody(s: State, a: Action)
    requires NobodyBreaks(s) && Enabled(s, a)
    requires !(a.Run? && s.procs[a.p].pc == Check && 0 < s.procs[a.p].expire < s.now)
    ensures NobodyBreaks(Apply(s, a)) && !Breaks(s, a)
  {
    hide TwoLinks;
  }

  lemma {:induction false} RunsKeep(s: State, actions: seq<Action>)
    requires Inv(s) && Runs(s, actions) && Unbroken(s, actions)
    ensures Inv(After(s, actions))
    decreases |actions|
  {
    hide Inv, Breaks;
    if actions != [] {
      if actions[0].Run? {
        RunKeeps(s, actions[0].p, actions[0].odd);
      } else {
        OtherKeeps(s, actions[0]);
      }
      RunsKeep(Apply(s, actions[0]), actions[1..]);
    }
  }

  /** However many processes, and however their steps fall: at most one is between a successful lockit
      and the end of its unlockit, and the lock path then names a file that is its own. */
  lemma MutualExclusion(n: nat, now: int, actions: seq<Action>, p: nat, q: nat)
    requires Runs(Initial(n, now), actions) && Unbroken(Initial(n, now), actions)
    requires var s := After(Initial(n, now), actions);
             p < |s.procs| && q < |s.procs| && Holding(s.procs[p].pc) && Holding(s.procs[q].pc)
    ensures p == q && Owns(After(Initial(n, now), actions), p)
  {
    var s := After(Initial(n, now), actions);
    RunsKeep(Initial(n, now), actions);
    assert ProcOk(s, p) && ProcOk(s, q);
  }

  /** While p holds the lock, its id file has link count 2 and no other id file has. */
  lemma HeldHasTwoLinks(s: State, p: nat, q: nat)
    requires Inv(s) && p < |s.procs| && s.procs[p].pc == Held
    ensures TwoLinks(s, q) <==> q == p
  {
    TwoLinksIsLocked(s, p);
    TwoLinksIsLocked(s, q);
    assert ProcOk(s, p);
  }

  // ----- what a remembered expiry does ----------------------------------------------------------------------

  ghost predicate Reaches(s: State, actions: seq<Action>, t: State) {
    Runs(s, actions) && After(s, actions) == t
  }

  lemma ReachOne(s: State, a: Action, u: State, rest: seq<Action>, t: State)
    requires Enabled(s, a) && Apply(s, a) == u && Reaches(u, rest, t)
    ensures Reaches(s, [a] + rest, t)
  {
    assert ([a] + rest)[1..] == rest;
  }

  lemma {:induction false} ReachBoth(s: State, a: seq<Action>, u: State, b: seq<Action>, t: State)
    requires Reaches(s, a, u) && Reaches(u, b, t)
    ensures Reaches(s, a + b, t)
    decreases |a|
  {
    if a == [] {
      assert a + b == b;
    } else {
      ReachBoth(Apply(s, a[0]), a[1..], u, b, t);
      assert (a + b)[1..] == a[1..] + b;
    }
  }

  function Steps(p: nat, n: nat): seq<Action> {
    if n == 0 then [] else [Run(p, false)] + Steps(p, n - 1)
  }

  /** p's own next step. */
  function Next(s: State, p: nat): State
    requires p < |s.procs|
  {
    Step(s, p, false)
  }

  lemma StepThen(s: State, p: nat, n: nat, t: State)
    requires p < |s.procs| && s.procs[p].pc != Idle && s.procs[p].pc != Held
    requires Reaches(Next(s, p), Steps(p, n), t)
    ensures Reaches(s, Steps(p, n + 1), t)
  {
    ReachOne(s, Run(p, false), Next(s, p), Steps(p, n), t);
  }

  lemma NoStep(s: State, p: nat)
    ensures Reaches(s, Steps(p, 0), s)
  {
  }

  /** Four steps of a waiter that finds its remembered expiry passed: it takes the lock. */
  lemma TakesInFour(s: State, p: nat)
    requires p < |s.procs| && s.procs[p].pc == Check && 0 < s.procs[p].expire < s.now && s.procs[p].lockid != p
             && Id(p) in s.names
    ensures var s1, s2, s3 := Next(s, p), Next(Next(s, p), p), Next(Next(Next(s, p), p), p);
            && s1 == At(s, p, BreakLock) && s2 == At(Unlink(s1, Lock), p, BreakId)
            && s3 == At(Unlink(s2, Id(s.procs[p].lockid)), p, Try)
            && Lock !in s3.names && Id(p) in s3.names
            && Next(s3, p) == At(s3.(names := s3.names[Lock := s3.names[Id(p)]]), p, Held)
            && Reaches(s, Steps(p, 4), Next(s3, p))
  {
    hide TwoLinks, ReadLockFile;
    var s1 := Next(s, p);
    var s2 := Next(s1, p);
    var s3 := Next(s2, p);
    var s4 := Next(s3, p);
    assert s1.procs[p].pc == BreakLock && s2.procs[p].pc == BreakId && s3.procs[p].pc == Try;
    hide Next, Steps;
    NoStep(s4, p);
    StepThen(s3, p, 0, s4);
    StepThen(s2, p, 1, s4);
    StepThen(s1, p, 2, s4);
    StepThen(s, p, 3, s4);
  }

  lemma UnbrokenThen(s: State, p: nat, n: nat)
    requires p < |s.procs| && s.procs[p].pc != Idle && s.procs[p].pc != Held
    requires !Breaks(s, Run(p, false)) && Runs(Next(s, p), Steps(p, n)) && Unbroken(Next(s, p), Steps(p, n))
    ensures Runs(s, Steps(p, n + 1)) && Unbroken(s, Steps(p, n + 1))
  {
    var rest := Steps(p, n);
    assert Steps(p, n + 1) == [Run(p, false)] + rest;
    assert ([Run(p, false)] + rest)[1..] == rest;
  }

  /** Nobody holds the lock, and the process whose lock p read is not in lockit. */
  ghost predicate Abandoned(s: State, p: nat) {
    && p < |s.procs| && (forall q :: 0 <= q < |s.procs| ==> !Holding(s.procs[q].pc))
    && (s.procs[p].lockid < |s.procs| ==> !HasId(s.procs[s.procs[p].lockid].pc))
  }

  lemma StaysAbandoned(s: State, p: nat, names: map<Path, nat>, pc: Pc)
    requires Abandoned(s, p) && HasId(s.procs[p].pc) && !Holding(pc)
    ensures Abandoned(At(s.(names := names), p, pc), p)
  {
  }

  /** What the expiry is for: a waiter takes the expired lock of a process that is gone, and no one is
      harmed. */
  lemma ExpiredLockTaken(s: State, p: nat)
    requires Inv(s) && Abandoned(s, p) && s.procs[p].pc == Check && 0 < s.procs[p].expire < s.now
    ensures exists t :: Reaches(s, Steps(p, 4), t) && Unbroken(s, Steps(p, 4)) && Inv(t)
                        && |t.procs| == |s.procs| && t.procs[p].pc == Held
  {
    assert ProcOk(s, p);
    TakesInFour(s, p);
    hide Next, Inv, ProcOk, Reaches, Steps, Unbroken, Abandoned, Breaks;
    var s1 := Next(s, p);
    var s2 := Next(s1, p);
    var s3 := Next(s2, p);
    StaysAbandoned(s, p, s.names, BreakLock);
    assert s1 == At(s.(names := s.names), p, BreakLock);
    StaysAbandoned(s1, p, s2.names, BreakId);
    StaysAbandoned(s2, p, s3.names, Try);
    SafeStep(s, p);
    SafeStep(s1, p);
    SafeStep(s2, p);
    SafeStep(s3, p);
    UnbrokenNone(Next(s3, p), p);
    UnbrokenThen(s3, p, 0);
    UnbrokenThen(s2, p, 1);
    UnbrokenThen(s1, p, 2);
    UnbrokenThen(s, p, 3);
  }

  lemma UnbrokenNone(s: State, p: nat)
    ensures Runs(s, Steps(p, 0)) && Unbroken(s, Steps(p, 0))
  {
  }

  lemma SafeStep(s: State, p: nat)
    requires Inv(s) && Abandoned(s, p) && s.procs[p].pc != Idle
    ensures Inv(Next(s, p)) && !Breaks(s, Run(p, false))
  {
    RunKeeps(s, p, false);
  }

  /** A waiter whose remembered expiry has passed takes the lock from whoever holds it, in four steps
      of its own: the expiry it compares is that of the lock it first saw, not of this one. */
  lemma StaleExpiryBreaks(s: State, p: nat, q: nat)
    requires p < |s.procs| && q < |s.procs| && p != q
    requires s.procs[p].pc == Check && 0 < s.procs[p].expire < s.now && s.procs[p].lockid != p
    requires Id(p) in s.names && s.procs[q].pc == Held
    ensures !Breaks(s, Run(p, false)) && Breaks(Next(s, p), Run(p, false))
    ensures exists t ::
              Reaches(s, Steps(p, 4), t) && |t.procs| == |s.procs| && t.procs[p].pc == Held && t.procs[q].pc == Held
  {
    TakesInFour(s, p);
    hide Next, Reaches, Steps;
    assert Holding(Next(s, p).procs[q].pc);
  }

  // ----- such a waiter exists ---------------------------------------------------------------------------------

  /** p has made its id file and is about to link. */
  function Asking(s: State, p: nat, timeout: nat): State
    requires p < |s.procs|
  {
    State(s.names[Id(p) := |s.files|], s.files + [Info(p, s.now + timeout)], s.now,
          s.procs[p := Proc(Try, s.now + timeout, -1, 0, 0)])
  }

  function Ask(p: nat, timeout: nat): seq<Action> {
    [LockIt(p, timeout)] + Steps(p, 3)
  }

  lemma Asks(s: State, p: nat, timeout: nat)
    requires p < |s.procs| && s.procs[p].pc == Idle && Id(p) !in s.names
    ensures Reaches(s, Ask(p, timeout), Asking(s, p, timeout))
  {
    hide TwoLinks, ReadLockFile;
    var s0 := Apply(s, LockIt(p, timeout));
    var s1 := Next(s0, p);
    assert s1 == At(s0, p, Create);
    var s2 := Next(s1, p);
    var s3 := Next(s2, p);
    assert s3.files == s.files + [Info(p, s.now + timeout)];
    assert s3 == Asking(s, p, timeout);
    hide Next, Steps;
    NoStep(s3, p);
    StepThen(s2, p, 0, s3);
    StepThen(s1, p, 1, s3);
    StepThen(s0, p, 2, s3);
    ReachOne(s, LockIt(p, timeout), s0, Steps(p, 3), s3);
  }

  function Locked(s: State, p: nat): State
    requires p < |s.procs|
  {
    s.(names := if Id(p) in s.names then s.names[Lock := s.names[Id(p)]] else s.names,
       procs := s.procs[p := s.procs[p].(pc := Held)])
  }

  /** The lock is free. */
  lemma Acquires(s: State, p: nat)
    requires p < |s.procs| && s.procs[p].pc == Try && Id(p) in s.names && Lock !in s.names
    ensures Reaches(s, Steps(p, 1), Locked(s, p))
  {
    NoStep(Next(s, p), p);
    StepThen(s, p, 0, Next(s, p));
  }

  function Waiting(s: State, p: nat, o: nat, expire: int): State
    requires p < |s.procs|
  {
    s.(procs := s.procs[p := s.procs[p].(pc := Check, lockid := o, expire := expire)])
  }

  /** The lock is taken: its expiry is read, once. */
  lemma Waits(s: State, p: nat, o: nat, expire: int)
    requires p < |s.procs| && s.procs[p].pc == Try && s.procs[p].expire == -1
    requires Named(s, Lock) && s.files[s.names[Lock]] == Info(o, expire) && !TwoLinks(s, p)
    ensures Reaches(s, Steps(p, 3), Waiting(s, p, o, expire))
  {
    var s1 := Next(s, p);
    assert s1 == At(s, p, StatRetry) && !TwoLinks(s1, p);
    hide TwoLinks;
    var s2 := Next(s1, p);
    var s3 := Next(s2, p);
    assert s3 == Waiting(s, p, o, expire);
    hide Next, Steps;
    NoStep(s3, p);
    StepThen(s2, p, 0, s3);
    StepThen(s1, p, 1, s3);
    StepThen(s, p, 2, s3);
  }

  function Released(s: State, p: nat): State
    requires p < |s.procs|
  {
    s.(names := s.names - {Lock, Id(p)}, procs := s.procs[p := s.procs[p].(pc := Idle, lockid := p)])
  }

  function Unlinking(s: State, p: nat): State
    requires p < |s.procs|
  {
    s.(procs := s.procs[p := s.procs[p].(pc := UnlinkId, lockid := p)])
  }

  lemma ReadsOwn(s: State, p: nat)
    requires p < |s.procs| && s.procs[p].pc == Held && Owns(s, p)
    ensures Reaches(s, [UnlockIt(p)] + Steps(p, 2), Unlinking(s, p))
  {
    hide TwoLinks;
    var s0 := Apply(s, UnlockIt(p));
    var s1 := Next(s0, p);
    var s2 := Next(s1, p);
    assert s2 == Unlinking(s, p);
    hide Next, Steps, Owns;
    NoStep(s2, p);
    StepThen(s1, p, 0, s2);
    StepThen(s0, p, 1, s2);
    ReachOne(s, UnlockIt(p), s0, Steps(p, 2), s2);
  }

  lemma UnlinksAll(s: State, p: nat)
    requires p < |s.procs| && s.procs[p].pc == UnlinkId && s.procs[p].lockid == p
    ensures Reaches(s, Steps(p, 3), Released(s, p))
  {
    hide TwoLinks;
    var s1 := Next(s, p);
    var s2 := Next(s1, p);
    assert s2.names == s.names - {Lock, Id(p)};
    var s3 := Next(s2, p);
    assert s3.names == s2.names;
    assert s3 == Released(s, p);
    hide Next, Steps;
    NoStep(s3, p);
    StepThen(s2, p, 0, s3);
    StepThen(s1, p, 1, s3);
    StepThen(s, p, 2, s3);
  }

  lemma Releases(s: State, p: nat)
    requires p < |s.procs| && s.procs[p].pc == Held && Owns(s, p)
    ensures Reaches(s, [UnlockIt(p)] + Steps(p, 5), Released(s, p))
  {
    hide Owns, Reaches, Steps;
    assert Released(Unlinking(s, p), p) == Released(s, p);
    ReadsOwn(s, p);
    UnlinksAll(Unlinking(s, p), p);
    ReachBoth(s, [UnlockIt(p)] + Steps(p, 2), Unlinking(s, p), Steps(p, 3), Released(s, p));
    StepsBoth(p, 2, 3);
  }

  lemma {:induction false} StepsBoth(p: nat, a: nat, b: nat)
    ensures Steps(p, a) + Steps(p, b) == Steps(p, a + b)
    ensures [UnlockIt(p)] + Steps(p, a) + Steps(p, b) == [UnlockIt(p)] + Steps(p, a + b)
  {
    if a > 0 {
      StepsBoth(p, a - 1, b);
      assert Steps(p, a) + Steps(p, b) == [Run(p, false)] + (Steps(p, a - 1) + Steps(p, b));
    }
    assert [UnlockIt(p)] + Steps(p, a) + Steps(p, b) == [UnlockIt(p)] + (Steps(p, a) + Steps(p, b));
  }

  /** Process 0 locks for 10 seconds, 1 waits behind it, 0 unlocks, 2 locks for 100; 11 seconds on, 1
      still compares with the 10. */
  function StaleRun(): seq<Action> {
    (Ask(0, 10) + Steps(0, 1))
    + ((Ask(1, 50) + Steps(1, 3)) + (([UnlockIt(0)] + Steps(0, 5)) + ((Ask(2, 100) + Steps(2, 1)) + [Tick(11)])))
  }

  const START := Proc(Idle, 0, -1, 0, 0)

  lemma FirstLocks()
    ensures Reaches(Initial(3, 0), Ask(0, 10) + Steps(0, 1), FIRST)
  {
    var s := Initial(3, 0);
    var t := Asking(s, 0, 10);
    Asks(s, 0, 10);
    Acquires(t, 0);
    assert Locked(t, 0) == FIRST;
    ReachBoth(s, Ask(0, 10), t, Steps(0, 1), FIRST);
  }

  const FIRST := State(map[Id(0) := 0, Lock := 0], [Info(0, 10)], 0, [Proc(Held, 10, -1, 0, 0), START, START])

  const SECOND := State(map[Id(0) := 0, Lock := 0, Id(1) := 1], [Info(0, 10), Info(1, 50)], 0,
                        [Proc(Held, 10, -1, 0, 0), Proc(Check, 50, 10, 0, 0), START])

  lemma SecondWaits()
    ensures Reaches(FIRST, Ask(1, 50) + Steps(1, 3), SECOND)
  {
    var t := Asking(FIRST, 1, 50);
    Asks(FIRST, 1, 50);
    assert Linked(t.names, 1) == {Id(1)};
    Waits(t, 1, 0, 10);
    assert Waiting(t, 1, 0, 10) == SECOND;
    ReachBoth(FIRST, Ask(1, 50), t, Steps(1, 3), SECOND);
  }

  const THIRD := State(map[Id(1) := 1], [Info(0, 10), Info(1, 50)], 0,
                       [Proc(Idle, 10, -1, 0, 0), Proc(Check, 50, 10, 0, 0), START])

  lemma FirstUnlocks()
    ensures Reaches(SECOND, [UnlockIt(0)] + Steps(0, 5), THIRD)
  {
    Releases(SECOND, 0);
    assert Released(SECOND, 0) == THIRD;
  }

  const FOURTH := State(map[Id(1) := 1, Id(2) := 2, Lock := 2], [Info(0, 10), Info(1, 50), Info(2, 100)], 0,
                        [Proc(Idle, 10, -1, 0, 0), Proc(Check, 50, 10, 0, 0), Proc(Held, 100, -1, 0, 0)])

  lemma ThirdLocks()
    ensures Reaches(THIRD, (Ask(2, 100) + Steps(2, 1)) + [Tick(11)], FOURTH.(now := 11))
  {
    var t := Asking(THIRD, 2, 100);
    Asks(THIRD, 2, 100);
    Acquires(t, 2);
    assert Locked(t, 2) == FOURTH;
    ReachBoth(THIRD, Ask(2, 100), t, Steps(2, 1), FOURTH);
    assert Reaches(FOURTH, [Tick(11)], FOURTH.(now := 11)) by {
      assert Reaches(FOURTH.(now := 11), [], FOURTH.(now := 11));
      ReachOne(FOURTH, Tick(11), FOURTH.(now := 11), [], FOURTH.(now := 11));
      assert [Tick(11)] + [] == [Tick(11)];
    }
    ReachBoth(THIRD, Ask(2, 100) + Steps(2, 1), FOURTH, [Tick(11)], FOURTH.(now := 11));
  }

  /** Two holders, with 89 seconds left on the lock that was broken. */
  lemma StaleExpiryReached()
    ensures exists t :: Reaches(Initial(3, 0), StaleRun() + Steps(1, 4), t) && |t.procs| == 3
              && t.procs[1].pc == Held && t.procs[2].pc == Held
    ensures Reaches(Initial(3, 0), StaleRun(), FOURTH.(now := 11)) && Owns(FOURTH.(now := 11), 2)
    ensures FOURTH.files[FOURTH.names[Lock]].expire == 100
  {
    hide Reaches, Steps, Ask;
    FirstLocks();
    SecondWaits();
    FirstUnlocks();
    ThirdLocks();
    var e := FOURTH.(now := 11);
    ReachBoth(SECOND, [UnlockIt(0)] + Steps(0, 5), THIRD, (Ask(2, 100) + Steps(2, 1)) + [Tick(11)], e);
    ReachBoth(FIRST, Ask(1, 50) + Steps(1, 3), SECOND,
              ([UnlockIt(0)] + Steps(0, 5)) + ((Ask(2, 100) + Steps(2, 1)) + [Tick(11)]), e);
    ReachBoth(Initial(3, 0), Ask(0, 10) + Steps(0, 1), FIRST,
              (Ask(1, 50) + Steps(1, 3))
                  + (([UnlockIt(0)] + Steps(0, 5)) + ((Ask(2, 100) + Steps(2, 1)) + [Tick(11)])), e);
    StaleExpiryBreaks(e, 1, 2);
    var t :| Reaches(e, Steps(1, 4), t) && |t.procs| == |e.procs| && t.procs[1].pc == Held && t.procs[2].pc == Held;
    ReachBoth(Initial(3, 0), StaleRun(), e, Steps(1, 4), t);
  }
}
