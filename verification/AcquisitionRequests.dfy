/** The halt and abort handshake between Expproc (src/bexpproc/msgehandler.c) and B12proc
    (src/b12proc/b12funcs.c), for one experiment.  A request makes the Code file disappear; B12proc
    sees that it is gone and looks for a file Code_halt to learn why. */
module AcquisitionRequests {
  import opened Common

  datatype Request = Halt | Halt2 | Abort | Reset

  /** How far B12proc is; Lost: the Code file was seen to be gone. */
  datatype Phase = Running | Lost | FoundHalt | FoundNone | Unlinking | Ended | Reported

  /** stale: a Code_halt file was there before the experiment began. */
  datatype State = State(
    active: bool, interactive: bool, abortInProgress: bool,
    code: bool, halt: bool, stale: bool,
    phase: Phase, lost: bool, posted: seq<DoneCode>, first: Option<Request>)

  datatype Action =
    | Ask(request: Request, userOk: bool)
    | StopInteract(granted: bool)
    | CheckCode | LookForHalt | Post | UnlinkHalt
    | Finish | Fail
    | ExpDone

  function Begin(interactive: bool, stale: bool): State {
    State(true, interactive, false, true, stale, stale, Running, false, [], None)
  }

  // ----- Expproc's requests -------------------------------------------------------------------------------

  /** acqAbort does not look at abort_in_progress, and the state it tests is never set. */
  predicate Accepted(s: State, r: Request, userOk: bool) {
    match r
    case Halt => s.active && userOk && !s.abortInProgress
    case Halt2 => s.active && userOk && !s.abortInProgress
    case Abort => s.active && !s.interactive && userOk
    case Reset => s.active
  }

  function Obey(s: State, r: Request): State {
    var t := s.(first := if s.first.None? then Some(r) else s.first, code := false);
    match r
    case Halt => t.(halt := s.halt || s.code, abortInProgress := true)
    case Halt2 => t.(abortInProgress := true)
    case Abort => t.(abortInProgress := true)
    case Reset => t.(active := false, interactive := false, abortInProgress := false)
  }

  // ----- one step -----------------------------------------------------------------------------------------

  predicate Enabled(s: State, a: Action) {
    match a
    case Ask(_, _) => true
    case StopInteract(_) => true
    case CheckCode => s.phase == Running
    case LookForHalt => s.phase == Lost
    case Post => s.phase == FoundHalt || s.phase == FoundNone
    case UnlinkHalt => s.phase == Unlinking
    case Finish => s.phase == Running
    case Fail => s.phase == Running
    case ExpDone => s.phase == Ended
  }

  function Apply(s: State, a: Action): State
    requires Enabled(s, a)
  {
    match a
    case Ask(r, userOk) => if Accepted(s, r, userOk) then Obey(s, r) else s
    case StopInteract(granted) => if granted then s.(abortInProgress := true) else s
    case CheckCode => if s.code then s else s.(phase := Lost, lost := true)
    case LookForHalt => s.(phase := if s.halt then FoundHalt else FoundNone)
    case Post =>
      if s.phase == FoundHalt then s.(posted := s.posted + [ExpComplete], phase := Unlinking)
      else s.(posted := s.posted + [ExpAborted], phase := Ended)
    case UnlinkHalt => s.(halt := false, phase := Ended)
    case Finish => s.(posted := s.posted + [ExpComplete], phase := Ended)
    case Fail => s.(posted := s.posted + [HardError], phase := Ended)
    case ExpDone =>
      s.(active := false, interactive := false, abortInProgress := false, code := false, phase := Reported)
  }

  predicate Runs(s: State, actions: seq<Action>)
    decreases |actions|
  {
    actions == [] || (Enabled(s, actions[0]) && Runs(Apply(s, actions[0]), actions[1..]))
  }

  function After(s: State, actions: seq<Action>): State
    requires Runs(s, actions)
    decreases |actions|
  {
    if actions == [] then s else After(Apply(s, actions[0]), actions[1..])
  }

  /** A halt, of either kind, is taken from a user who may give it while nothing is being aborted; an abort
      from such a user, unless the run is interactive, even then; a reset from anybody.  Each is taken only from
      an active experiment and removes the Code file; a halt of the first kind makes Code_halt of it. */
  lemma RequestDoes(s: State, r: Request, userOk: bool)
    ensures var allowed := userOk && if r == Abort then !s.interactive else !s.abortInProgress;
            var taken := s.active && (r == Reset || allowed);
            var t := Apply(s, Ask(r, userOk));
            && (!taken ==> t == s)
            && (taken ==>
                  && !t.code && t.halt == (s.halt || (s.code && r == Halt))
                  && t.first == (if s.first.Some? then s.first else Some(r))
                  && t.active == (r != Reset) && t.interactive == (s.interactive && r != Reset)
                  && t.abortInProgress == (r != Reset)
                  && t.phase == s.phase && t.posted == s.posted && t.lost == s.lost && t.stale == s.stale)
  {
  }

  /** Requests come at any time; stopping an interactive run, if granted, counts as one under way. */
  lemma RequestsComeAnyTime(s: State, r: Request, userOk: bool, granted: bool)
    ensures Enabled(s, Ask(r, userOk)) && Enabled(s, StopInteract(granted))
    ensures Apply(s, StopInteract(granted)) == s.(abortInProgress := s.abortInProgress || granted)
  {
  }

  /** B12proc reads two files: without the Code file it looks for Code_halt, posts complete if that is there
      and removes it, and posts aborted if not. */
  lemma RunnerDoes(s: State)
    requires s.phase == Running
    ensures s.code ==> Apply(s, CheckCode) == s
    ensures !s.code ==>
              var t := Apply(Apply(Apply(s, CheckCode), LookForHalt), Post);
              if s.halt then
                && t.phase == Unlinking && t.posted == s.posted + [ExpComplete]
                && Apply(t, UnlinkHalt) == t.(halt := false, phase := Ended)
              else t.phase == Ended && t.posted == s.posted + [ExpAborted] && !t.halt
    ensures Apply(s.(phase := Ended), ExpDone)
            == s.(active := false, interactive := false, abortInProgress := false, code := false, phase := Reported)
    ensures Apply(s, Finish).posted == s.posted + [ExpComplete] && Apply(s, Fail).posted == s.posted + [HardError]
  {
  }

  // ----- what every step keeps ------------------------------------------------------------------------------

  /** What the first accepted request, and nothing after it, says about the experiment. */
  function Meant(s: State): DoneCode {
    if s.stale || s.first == Some(Halt) then ExpComplete else ExpAborted
  }

  predicate InAbort(phase: Phase) {
    phase == Lost || phase == FoundHalt || phase == FoundNone || phase == Unlinking
  }

  ghost predicate Inv(s: State) {
    && (s.first.None? && s.phase != Reported ==> s.code && s.active)
    && (s.first.Some? ==> !s.code && (s.active ==> s.abortInProgress))
    && (s.first.None? ==> s.halt == s.stale && !s.lost)
    && (s.first.Some? && !(s.lost && (s.phase == Ended || s.phase == Reported)) ==> s.halt == (Meant(s) == ExpComplete))
    && (InAbort(s.phase) ==> s.lost && s.first.Some?)
    && (s.phase == FoundHalt ==> Meant(s) == ExpComplete)
    && (s.phase == FoundNone ==> Meant(s) == ExpAborted)
    && (s.phase == Unlinking ==> s.posted == [ExpComplete] && Meant(s) == ExpComplete)
    && (s.phase in {Running, Lost, FoundHalt, FoundNone} ==> s.posted == [])
    && (s.phase == Running ==> !s.lost)
    && (s.phase == Ended || s.phase == Reported ==> |s.posted| == 1)
    && ((s.phase == Ended || s.phase == Reported) && s.lost ==> s.posted == [Meant(s)] && s.first.Some?)
    && (s.phase == Reported ==> !s.active && !s.code)
    && (s.lost && (s.phase == Ended || s.phase == Reported) ==> !s.halt)
  }

  lemma StepKeeps(s: State, a: Action)
    requires Inv(s) && Enabled(s, a)
    ensures Inv(Apply(s, a)) && Apply(s, a).stale == s.stale
  {
    if a.Ask? {
      AskKeeps(s, a.request, a.userOk);
    } else {
      RunnerKeeps(s, a);
    }
  }

  lemma AskKeeps(s: State, r: Request, userOk: bool)
    requires Inv(s)
    ensures Inv(Apply(s, Ask(r, userOk))) && Apply(s, Ask(r, userOk)).stale == s.stale
  {
    if Accepted(s, r, userOk) { ObeyKeeps(s, r); }
  }

  lemma ObeyKeeps(s: State, r: Request)
    requires Inv(s) && s.active && (r == Halt ==> !s.abortInProgress)
    ensures Inv(Obey(s, r)) && Obey(s, r).stale == s.stale
  {
  }

  lemma RunnerKeeps(s: State, a: Action)
    requires Inv(s) && Enabled(s, a) && !a.Ask?
    ensures Inv(Apply(s, a)) && Apply(s, a).stale == s.stale
  {
    hide Obey, Accepted;
  }

  lemma {:induction false} RunsKeep(s: State, actions: seq<Action>)
    requires Inv(s) && Runs(s, actions)
    ensures Inv(After(s, actions)) && After(s, actions).stale == s.stale
    decreases |actions|
  {
    hide Inv, Apply, Enabled;
    if actions != [] {
      StepKeeps(s, actions[0]);
      RunsKeep(Apply(s, actions[0]), actions[1..]);
    }
  }

  // ----- the outcome ----------------------------------------------------------------------------------------------

  /** What a request asks for. */
  function Wanted(r: Request): DoneCode {
    if r == Halt then ExpComplete else ExpAborted
  }

  /** Whenever B12proc has seen the Code file gone and reported, some request was accepted, one record
      was posted, and it is what the first accepted request asked for, whatever came later; except
      when an old Code_halt file was there and the request was not to halt. */
  lemma OutcomeIsFirstRequest(interactive: bool, stale: bool, actions: seq<Action>)
    requires Runs(Begin(interactive, stale), actions)
    requires var s := After(Begin(interactive, stale), actions); s.lost && s.posted != []
    ensures var s := After(Begin(interactive, stale), actions);
            && s.first.Some? && |s.posted| == 1
            && (s.posted[0] == Wanted(s.first.value) <==> !stale || s.first.value == Halt)
            && s.posted == [if stale || s.first == Some(Halt) then ExpComplete else ExpAborted]
  {
    RunsKeep(Begin(interactive, stale), actions);
  }

  /** Without a request the Code file stays until the experiment is reported. */
  lemma OnlyRequestsEnd(interactive: bool, stale: bool, actions: seq<Action>)
    requires Runs(Begin(interactive, stale), actions)
    ensures var s := After(Begin(interactive, stale), actions);
            s.first.None? && s.phase != Reported ==> s.code && !s.lost && s.active
  {
    RunsKeep(Begin(interactive, stale), actions);
  }

  /** Once one request is accepted, the next can no longer move the files B12proc looks at. */
  lemma LaterRequestsChangeNothing(s: State, r: Request, userOk: bool)
    requires Inv(s) && s.first.Some?
    ensures var t := Apply(s, Ask(r, userOk));
            t.first == s.first && t.code == s.code && t.halt == s.halt && t.posted == s.posted && t.phase == s.phase
  {
  }

  /** When the experiment has been reported, Code_halt is left behind if and only if B12proc did not see the
      Code file gone, and the file was there before or the first accepted request was to halt. */
  lemma HaltFileLeft(interactive: bool, stale: bool, actions: seq<Action>)
    requires Runs(Begin(interactive, stale), actions)
    requires After(Begin(interactive, stale), actions).phase == Reported
    ensures var s := After(Begin(interactive, stale), actions);
            s.halt <==> !s.lost && (stale || s.first == Some(Halt))
  {
    RunsKeep(Begin(interactive, stale), actions);
  }

  /** So a halt that comes after B12proc's last look at the Code file leaves Code_halt behind ... */
  lemma LateHaltLeavesFile()
    ensures var actions := [Finish, Ask(Halt, true), ExpDone];
            && Runs(Begin(false, false), actions)
            && var s := After(Begin(false, false), actions);
               s.phase == Reported && !s.lost && s.halt && s.posted == [ExpComplete]
  {
    var a := Apply(Begin(false, false), Finish);
    var b := Apply(a, Ask(Halt, true));
    var c := Apply(b, ExpDone);
    assert After(c, []) == c && Runs(c, []);
    assert Runs(b, [ExpDone]) && After(b, [ExpDone]) == c;
    assert [Ask(Halt, true), ExpDone][1..] == [ExpDone];
    assert Runs(a, [Ask(Halt, true), ExpDone]) && After(a, [Ask(Halt, true), ExpDone]) == c;
    assert [Finish, Ask(Halt, true), ExpDone][1..] == [Ask(Halt, true), ExpDone];
  }

  /** ... and then an abort of the next experiment with that Code file is reported as complete. */
  lemma StaleHaltMisreports()
    ensures var actions := [Ask(Abort, true), CheckCode, LookForHalt, Post];
            && Runs(Begin(false, true), actions) && After(Begin(false, true), actions).posted == [ExpComplete]
  {
    var a := Apply(Begin(false, true), Ask(Abort, true));
    var b := Apply(a, CheckCode);
    var c := Apply(b, LookForHalt);
    var d := Apply(c, Post);
    assert Runs(d, []) && After(d, []) == d;
    assert Runs(c, [Post]) && After(c, [Post]) == d;
    assert [LookForHalt, Post][1..] == [Post];
    assert Runs(b, [LookForHalt, Post]) && After(b, [LookForHalt, Post]) == d;
    assert [CheckCode, LookForHalt, Post][1..] == [LookForHalt, Post];
    assert Runs(a, [CheckCode, LookForHalt, Post]) && After(a, [CheckCode, LookForHalt, Post]) == d;
    assert [Ask(Abort, true), CheckCode, LookForHalt, Post][1..] == [CheckCode, LookForHalt, Post];
  }
}
