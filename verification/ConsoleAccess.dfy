/** The console access records of src/bexpproc/msgehandler.c: who may shim and who may acquire. */
module ConsoleAccess {
  /** Unrecognised is what parseLevel calls ERROR. */
  datatype Level = NoLevel | Shim | Acquire | Unrecognised

  datatype Auth = Auth(user: string, host: string, pid: int)

  datatype Slot = Slot(auth: Auth, level: Level, count: int)

  const ZERO := Auth("", "", 0)
  const EMPTY := Slot(ZERO, NoLevel, 0)
  const LEVELS := 2

  /** The process table, and the user of the experiment under way, if any. */
  datatype World = World(alive: set<int>, active: bool, activeUser: string)

  datatype Comparison = Same | Different | OtherProcess

  predicate Recognised(l: Level) {
    l == Shim || l == Acquire
  }

  function CompareAuth(a: Auth, b: Auth): Comparison {
    if a.user != b.user || a.host != b.host then Different
    else if a.pid != b.pid then OtherProcess
    else Same
  }

  const HOSTLEN := 64

  function Cut(s: string): string {
    if |s| > HOSTLEN - 1 then s[..HOSTLEN - 1] else s
  }

  /** A host name that fits is not what is stored: the user name is. */
  function BuildAuth(user: string, host: string, pid: int): Auth
    requires |user| <= HOSTLEN - 1
  {
    Auth(user, if host == "" then "" else if |host| > HOSTLEN - 1 then Cut(host) else user, pid)
  }

  predicate Fits(host: string) {
    0 < |host| <= HOSTLEN - 1
  }

  /** The hosts of one user that compare as the same: any two whose names fit, and a longer name with
      one that has the same beginning, or whose beginning is the user name that stands for the rest. */
  predicate HostsAlike(user: string, h1: string, h2: string) {
    if Fits(h1) && Fits(h2) then true
    else if Fits(h1) then (if h2 == "" then user == "" else Cut(h2) == user)
    else if Fits(h2) then (if h1 == "" then user == "" else Cut(h1) == user)
    else Cut(h1) == Cut(h2)
  }

  /** So two hosts whose names fit are never told apart. */
  lemma HostsNotTold(u1: string, h1: string, p1: int, u2: string, h2: string, p2: int)
    requires |u1| <= HOSTLEN - 1 && |u2| <= HOSTLEN - 1
    ensures CompareAuth(BuildAuth(u1, h1, p1), BuildAuth(u2, h2, p2)) == Same
            <==> u1 == u2 && p1 == p2 && HostsAlike(u1, h1, h2)
  {
    assert forall h: string :: |h| > HOSTLEN - 1 ==> Cut(h) != "";
    if u1 == u2 && p1 == p2 { StoredHosts(u1, h1, p1, h2); }
  }

  /** Of a host that fits, the user name is kept in its place; of a longer name, 63 characters. */
  lemma HostKept(user: string, host: string, pid: int)
    requires |user| <= HOSTLEN - 1
    ensures BuildAuth(user, host, pid) ==
            Auth(user, if host == "" then "" else if |host| <= 63 then user else host[..63], pid)
  {
  }

  lemma StoredHosts(user: string, h1: string, pid: int, h2: string)
    requires |user| <= HOSTLEN - 1
    ensures BuildAuth(user, h1, pid).host == BuildAuth(user, h2, pid).host <==> HostsAlike(user, h1, h2)
  {
  }

  predicate IsActive(a: Auth, w: World) {
    a.user != "" && a.pid > 0 && a.pid in w.alive
  }

  predicate UserOk(user: string, w: World) {
    !w.active || user == w.activeUser
  }

  // ----- the table as a value ---------------------------------------------------------------------------

  datatype Table = Table(slots: seq<Slot>, interactivePid: int)

  function AtLevel(t: Table, l: Level): int
    requires |t.slots| == LEVELS
    ensures -1 <= AtLevel(t, l) < LEVELS
  {
    if t.slots[0].level == l then 0 else if t.slots[1].level == l then 1 else -1
  }

  function AtRecord(t: Table, a: Auth): int
    requires |t.slots| == LEVELS
    ensures -1 <= AtRecord(t, a) < LEVELS
  {
    if CompareAuth(a, t.slots[0].auth) == Same then 0 else if CompareAuth(a, t.slots[1].auth) == Same then 1 else -1
  }

  /** The record goes at once, the level with the last of the counted accesses. */
  function Cleared(s: Slot): Slot {
    Slot(ZERO, if s.count - 1 < 1 then NoLevel else s.level, s.count - 1)
  }

  function ClearIndex(t: Table, i: int): (r: Table)
    requires |t.slots| == LEVELS && 0 <= i < LEVELS
    ensures |r.slots| == LEVELS
  {
    t.(slots := t.slots[i := Cleared(t.slots[i])])
  }

  function ClearLevel(t: Table, l: Level): (r: Table)
    requires |t.slots| == LEVELS
    ensures |r.slots| == LEVELS
  {
    if AtLevel(t, l) < 0 then t else ClearIndex(t, AtLevel(t, l))
  }

  function Records(t: Table, a: Auth): nat
    requires |t.slots| == LEVELS
  {
    (if t.slots[0].auth == a then 1 else 0) + (if t.slots[1].auth == a then 1 else 0)
  }

  /** Clears every slot with the record, one at a time; a has a process id, so it is not ZERO. */
  function ClearRecord(t: Table, a: Auth): (r: Table)
    requires |t.slots| == LEVELS && a.pid != 0
    ensures |r.slots| == LEVELS
    decreases Records(t, a)
  {
    if AtRecord(t, a) < 0 then t else ClearRecord(ClearIndex(t, AtRecord(t, a)), a)
  }

  function Store(t: Table, a: Auth, l: Level): (r: Table)
    requires |t.slots| == LEVELS
    ensures |r.slots| == LEVELS
  {
    var i := AtLevel(t, l);
    if i >= 0 then
      if CompareAuth(a, t.slots[i].auth) == Same then
        t.(slots := t.slots[i := t.slots[i].(count := t.slots[i].count + 1)])
      else t
    else
      var free := AtLevel(t, NoLevel);
      if free < 0 then t else t.(slots := t.slots[free := Slot(a, l, 1)])
  }

  /** Whether access may be granted; the record of a process that is gone is erased on the way. */
  function Verify(t: Table, w: World, a: Auth, l: Level): (r: (bool, Table))
    requires |t.slots| == LEVELS
    ensures |r.1.slots| == LEVELS
  {
    if !UserOk(a.user, w) then (false, t)
    else
      var i := AtLevel(t, l);
      if i < 0 then (true, t)
      else
        var s := t.slots[i];
        if IsActive(s.auth, w) then (CompareAuth(s.auth, a) != Different, t)
        else (true, Table(t.slots[i := EMPTY], if s.auth.pid == t.interactivePid then -1 else t.interactivePid))
  }

  /** verifyInteractAccess for nobody in particular: no user is asked for, and nobody is the same. */
  function VerifyNobody(t: Table, w: World, l: Level): (r: (bool, Table))
    requires |t.slots| == LEVELS
    ensures |r.1.slots| == LEVELS
  {
    var i := AtLevel(t, l);
    if i < 0 then (true, t)
    else if IsActive(t.slots[i].auth, w) then (false, t)
    else (true, Table(t.slots[i := EMPTY],
                      if t.slots[i].auth.pid == t.interactivePid then -1 else t.interactivePid))
  }

  /** isThereInteractiveAccess: levels are tried in turn up to the first that is taken. */
  function AnyAccess(t: Table, w: World): (r: (bool, Table))
    requires |t.slots| == LEVELS
    ensures |r.1.slots| == LEVELS
  {
    var shim := VerifyNobody(t, w, Shim);
    if !shim.0 then (true, shim.1)
    else
      var acquire := VerifyNobody(shim.1, w, Acquire);
      (!acquire.0, acquire.1)
  }

  /** reserveConsole, for a requester with a process id. */
  function Reserve(t: Table, w: World, a: Auth, l: Level): (r: (bool, Table))
    requires |t.slots| == LEVELS && a.pid != 0
    ensures |r.1.slots| == LEVELS
  {
    if l == NoLevel then
      if AtRecord(t, a) > 0 then (true, ClearRecord(t, a)) else (false, t)
    else
      var (granted, u) := Verify(t, w, a, l);
      if granted && (l != Acquire || u.interactivePid < 0) then (true, Store(u, a, l)) else (granted, u)
  }

  function Release(t: Table, a: Auth, l: Level): (r: (bool, Table))
    requires |t.slots| == LEVELS && a.pid != 0
    ensures |r.1.slots| == LEVELS
  {
    if l == NoLevel then (true, ClearRecord(t, a))
    else
      var i := AtLevel(t, l);
      if i < 0 then (true, t)
      else if CompareAuth(t.slots[i].auth, a) == Same then (true, ClearIndex(t, i))
      else (false, t)
  }

  /** startInteract; `able` stands for the queue and the experiment being as it needs them. */
  function StartInteract(t: Table, w: World, a: Auth, able: bool): (r: (bool, Table))
    requires |t.slots| == LEVELS
    ensures |r.1.slots| == LEVELS
  {
    var notRegistered := AtLevel(t, Acquire) < 0;
    var (granted, u) := Verify(t, w, a, Acquire);
    if granted && !w.active && able then
      (true, (if notRegistered then Store(u, a, Acquire) else u).(interactivePid := a.pid))
    else (false, u)
  }

  /** ExpAcqDone and resetState. */
  function Finish(t: Table): (r: Table)
    requires |t.slots| == LEVELS
    ensures |r.slots| == LEVELS
  {
    ClearLevel(t, Acquire).(interactivePid := -1)
  }

  // ----- what every request keeps ---------------------------------------------------------------------------

  predicate SlotOk(s: Slot) {
    && s.count >= 0 && (s.level == NoLevel <==> s.count == 0)
    && (s.level == NoLevel ==> s.auth == ZERO)
    && s.level != Unrecognised
  }

  ghost predicate Inv(t: Table) {
    && |t.slots| == LEVELS && SlotOk(t.slots[0]) && SlotOk(t.slots[1])
    && (t.slots[0].level == t.slots[1].level ==> t.slots[0].level == NoLevel)
  }

  /** A level that nobody has leaves a slot free for it. */
  lemma FreeSlot(t: Table, l: Level)
    requires Inv(t) && Recognised(l) && AtLevel(t, l) < 0
    ensures AtLevel(t, NoLevel) >= 0
  {
  }

  lemma ClearIndexKeeps(t: Table, i: int)
    requires Inv(t) && 0 <= i < LEVELS && t.slots[i].level != NoLevel
    ensures Inv(ClearIndex(t, i))
  {
  }

  lemma {:induction false} ClearRecordKeeps(t: Table, a: Auth)
    requires Inv(t) && a.pid != 0
    ensures Inv(ClearRecord(t, a)) && Records(ClearRecord(t, a), a) == 0
    decreases Records(t, a)
  {
    var i := AtRecord(t, a);
    if i >= 0 {
      ClearIndexKeeps(t, i);
      ClearRecordKeeps(ClearIndex(t, i), a);
    }
  }

  lemma StoreKeeps(t: Table, a: Auth, l: Level)
    requires Inv(t) && Recognised(l)
    ensures Inv(Store(t, a, l))
  {
  }

  lemma VerifyKeeps(t: Table, w: World, a: Auth, l: Level)
    requires Inv(t) && Recognised(l)
    ensures Inv(Verify(t, w, a, l).1)
  {
  }

  lemma NobodyKeeps(t: Table, w: World, l: Level)
    requires Inv(t) && Recognised(l)
    ensures Inv(VerifyNobody(t, w, l).1)
  {
  }

  lemma AnyAccessKeeps(t: Table, w: World)
    requires Inv(t)
    ensures Inv(AnyAccess(t, w).1)
  {
    hide VerifyNobody;
    NobodyKeeps(t, w, Shim);
    NobodyKeeps(VerifyNobody(t, w, Shim).1, w, Acquire);
  }

  datatype Event =
    | Reserves(w: World, a: Auth, l: Level)
    | Releases(a: Auth, l: Level)
    | Starts(w: World, a: Auth, able: bool)
    | Checks(w: World, a: Auth)               // getInteract and stopInteract
    | Looks(w: World)                         // isThereInteractiveAccess
    | Finishes

  predicate GoodEvent(e: Event) {
    match e
    case Reserves(_, a, l) => a.pid != 0 && l != Unrecognised
    case Releases(a, l) => a.pid != 0 && l != Unrecognised
    case Starts(_, a, _) => a.pid != 0
    case Checks(_, a) => a.pid != 0
    case Looks(_) => true
    case Finishes => true
  }

  function Apply(t: Table, e: Event): (r: Table)
    requires |t.slots| == LEVELS && GoodEvent(e)
    ensures |r.slots| == LEVELS
  {
    match e
    case Reserves(w, a, l) => Reserve(t, w, a, l).1
    case Releases(a, l) => Release(t, a, l).1
    case Starts(w, a, able) => StartInteract(t, w, a, able).1
    case Checks(w, a) => Verify(t, w, a, Acquire).1
    case Looks(w) => AnyAccess(t, w).1
    case Finishes => Finish(t)
  }

  lemma EventKeeps(t: Table, e: Event)
    requires Inv(t) && GoodEvent(e)
    ensures Inv(Apply(t, e))
  {
    hide Verify, Store, ClearRecord;
    match e
    case Reserves(w, a, l) =>
      if l == NoLevel {
        ClearRecordKeeps(t, a);
      } else {
        VerifyKeeps(t, w, a, l);
        StoreKeeps(Verify(t, w, a, l).1, a, l);
      }
    case Releases(a, l) =>
      ClearRecordKeeps(t, a);
    case Starts(w, a, able) =>
      VerifyKeeps(t, w, a, Acquire);
      StoreKeeps(Verify(t, w, a, Acquire).1, a, Acquire);
    case Checks(w, a) =>
      VerifyKeeps(t, w, a, Acquire);
    case Looks(w) =>
      AnyAccessKeeps(t, w);
    case Finishes =>
  }

  function AfterAll(t: Table, es: seq<Event>): (r: Table)
    requires |t.slots| == LEVELS && forall i :: 0 <= i < |es| ==> GoodEvent(es[i])
    ensures |r.slots| == LEVELS
    decreases |es|
  {
    if es == [] then t else AfterAll(Apply(t, es[0]), es[1..])
  }

  lemma {:induction false} EventsKeep(t: Table, es: seq<Event>)
    requires Inv(t) && forall i :: 0 <= i < |es| ==> GoodEvent(es[i])
    ensures Inv(AfterAll(t, es))
    decreases |es|
  {
    if es != [] {
      EventKeeps(t, es[0]);
      hide Apply;
      EventsKeep(Apply(t, es[0]), es[1..]);
    }
  }

  const START := Table([EMPTY, EMPTY], -1)

  /** However the console is reserved, released, used and freed: no two slots have the same level, a
      slot has a level just when it has accesses counted, a slot without one has no record, and a level
      nobody has can always be taken. */
  lemma TableIsSound(es: seq<Event>, l: Level)
    requires forall i :: 0 <= i < |es| ==> GoodEvent(es[i])
    ensures Inv(AfterAll(START, es))
    ensures Recognised(l) && AtLevel(AfterAll(START, es), l) < 0 ==> AtLevel(AfterAll(START, es), NoLevel) >= 0
  {
    EventsKeep(START, es);
    if Recognised(l) && AtLevel(AfterAll(START, es), l) < 0 { FreeSlot(AfterAll(START, es), l); }
  }

  // ----- whose the console is ---------------------------------------------------------------------------------

  /** The slot at level l holds r's record. */
  ghost predicate Has(t: Table, l: Level, r: Auth) {
    |t.slots| == LEVELS && AtLevel(t, l) >= 0 && t.slots[AtLevel(t, l)].auth == r
  }

  /** r's process ends its access, or its experiment is over, or it is gone. */
  predicate GivesUp(e: Event, l: Level, r: Auth) {
    match e
    case Reserves(w, a, m) => (a == r && m == NoLevel) || (m == l && !IsActive(r, w))
    case Releases(a, m) => a == r && (m == l || m == NoLevel)
    case Starts(w, a, _) => l == Acquire && !IsActive(r, w)
    case Checks(w, a) => l == Acquire && !IsActive(r, w)
    case Looks(w) => !IsActive(r, w)
    case Finishes => l == Acquire
  }

  /** What anybody else does, while the process is there, is no giving up; nor is what it does itself but for
      releasing that level or every one. */
  lemma NoGivingUp(w: World, a: Auth, m: Level, able: bool, l: Level, r: Auth)
    requires Recognised(l) && r.pid != 0
    ensures GoodEvent(Finishes) && GoodEvent(Looks(w))
    ensures a.pid != 0 ==> GoodEvent(Starts(w, a, able)) && GoodEvent(Checks(w, a))
    ensures a.pid != 0 && m != Unrecognised ==> GoodEvent(Reserves(w, a, m)) && GoodEvent(Releases(a, m))
    ensures a != r || (m != l && m != NoLevel) ==> !GivesUp(Releases(a, m), l, r)
    ensures l == Shim ==> !GivesUp(Starts(w, a, able), l, r) && !GivesUp(Checks(w, a), l, r) && !GivesUp(Finishes, l, r)
    ensures m != l && (a != r || m != NoLevel) ==> !GivesUp(Reserves(w, a, m), l, r)
    ensures r.user != "" && r.pid > 0 && r.pid in w.alive ==>
              && !GivesUp(Starts(w, a, able), l, r) && !GivesUp(Checks(w, a), l, r) && !GivesUp(Looks(w), l, r)
              && (a != r || m != NoLevel ==> !GivesUp(Reserves(w, a, m), l, r))
  {
  }

  lemma {:induction false} ClearOther(t: Table, a: Auth, l: Level, r: Auth)
    requires Has(t, l, r) && a.pid != 0 && a != r && Inv(t) && Recognised(l)
    ensures Has(ClearRecord(t, a), l, r)
    decreases Records(t, a)
  {
    var i := AtRecord(t, a);
    if i >= 0 {
      ClearIndexKeeps(t, i);
      ClearOther(ClearIndex(t, i), a, l, r);
    }
  }

  lemma VerifyLeaves(t: Table, w: World, a: Auth, m: Level, l: Level, r: Auth)
    requires Has(t, l, r) && Inv(t) && Recognised(l) && Recognised(m) && (m == l ==> IsActive(r, w))
    ensures Has(Verify(t, w, a, m).1, l, r)
  {
  }

  lemma NobodyLeaves(t: Table, w: World, m: Level, l: Level, r: Auth)
    requires Has(t, l, r) && Inv(t) && Recognised(l) && Recognised(m) && IsActive(r, w)
    ensures Has(VerifyNobody(t, w, m).1, l, r)
  {
  }

  lemma AnyAccessLeaves(t: Table, w: World, l: Level, r: Auth)
    requires Has(t, l, r) && Inv(t) && Recognised(l) && IsActive(r, w)
    ensures Has(AnyAccess(t, w).1, l, r)
  {
    hide VerifyNobody;
    NobodyKeeps(t, w, Shim);
    NobodyLeaves(t, w, Shim, l, r);
    NobodyLeaves(VerifyNobody(t, w, Shim).1, w, Acquire, l, r);
  }

  lemma StoreLeaves(t: Table, a: Auth, m: Level, l: Level, r: Auth)
    requires Has(t, l, r) && Inv(t) && Recognised(l) && Recognised(m)
    ensures Has(Store(t, a, m), l, r)
  {
  }

  lemma RecordStays(t: Table, e: Event, l: Level, r: Auth)
    requires Inv(t) && GoodEvent(e) && Recognised(l) && Has(t, l, r) && r.pid != 0 && !GivesUp(e, l, r)
    ensures Has(Apply(t, e), l, r)
  {
    match e
    case Reserves(w, a, m) =>
      hide Verify, Store, ClearRecord, Has;
      if m == NoLevel {
        ClearOther(t, a, l, r);
      } else {
        VerifyKeeps(t, w, a, m);
        VerifyLeaves(t, w, a, m, l, r);
        StoreLeaves(Verify(t, w, a, m).1, a, m, l, r);
      }
    case Releases(a, m) =>
      if m == NoLevel {
        hide ClearRecord;
        ClearOther(t, a, l, r);
      }
    case Starts(w, a, able) =>
      hide Verify, Store;
      VerifyKeeps(t, w, a, Acquire);
      VerifyLeaves(t, w, a, Acquire, l, r);
      StoreLeaves(Verify(t, w, a, Acquire).1, a, Acquire, l, r);
    case Checks(w, a) =>
      hide Verify, Has;
      VerifyLeaves(t, w, a, Acquire, l, r);
    case Looks(w) =>
      AnyAccessLeaves(t, w, l, r);
    case Finishes =>
  }

  /** r keeps its level until it gives it up. */
  lemma {:induction false} OwnerStays(t: Table, es: seq<Event>, l: Level, r: Auth)
    requires Inv(t) && Recognised(l) && Has(t, l, r) && r.pid != 0
    requires forall i :: 0 <= i < |es| ==> GoodEvent(es[i]) && !GivesUp(es[i], l, r)
    ensures Inv(AfterAll(t, es)) && Has(AfterAll(t, es), l, r)
    decreases |es|
  {
    if es != [] {
      EventKeeps(t, es[0]);
      RecordStays(t, es[0], l, r);
      hide Apply, Has;
      OwnerStays(Apply(t, es[0]), es[1..], l, r);
    }
  }

  /** There is access just when a process that is there has a level; of processes that are gone, the
      records are erased up to then. */
  lemma AnyAccessWhen(t: Table, w: World)
    requires Inv(t)
    ensures var r := AnyAccess(t, w);
            && (r.0 <==> exists i ::
                  0 <= i < 2 && var a := t.slots[i].auth; a.user != "" && a.pid > 0 && a.pid in w.alive)
            && (!r.0 ==>
                  && r.1.slots == [Slot(Auth("", "", 0), NoLevel, 0), Slot(Auth("", "", 0), NoLevel, 0)]
                  && r.1.interactivePid ==
                     if exists i :: 0 <= i < 2 && t.slots[i].level != NoLevel && t.slots[i].auth.pid == t.interactivePid
                     then -1 else t.interactivePid)
  {
    assert !IsActive(ZERO, w);
    assert IsActive(t.slots[0].auth, w) || IsActive(t.slots[1].auth, w) ==>
             exists i :: 0 <= i < LEVELS && IsActive(t.slots[i].auth, w);
  }

  /** A level is granted just when the user may have the console and nobody else alive has the level. */
  lemma GrantedWhen(t: Table, w: World, a: Auth, l: Level, r: Auth)
    requires Inv(t) && Recognised(l) && a.pid != 0 && Has(t, l, r)
    ensures Reserve(t, w, a, l).0
            <==> (!w.active || a.user == w.activeUser)
                 && (r.user == "" || r.pid <= 0 || r.pid !in w.alive || (a.user == r.user && a.host == r.host))
  {
    hide Store;
  }

  /** What reserving a level that somebody has does: a user other than that of the experiment under way is
      refused; a second time by the same process counts; another process of that user on that host is granted
      but not recorded; and the record of a process that is gone makes way. */
  lemma ReserveDoes(t: Table, w: World, a: Auth, l: Level, i: nat)
    requires Inv(t) && (l == Shim || l == Acquire) && a.pid != 0 && i < 2 && t.slots[i].level == l
    ensures var out, s := Reserve(t, w, a, l), t.slots[i];
            var live := s.auth.user != "" && s.auth.pid > 0 && s.auth.pid in w.alive;
            var mine := t.interactivePid < 0 || l == Shim;
            && (w.active && a.user != w.activeUser ==> out == (false, t))
            && (!w.active || a.user == w.activeUser ==>
                  && (live ==>
                        && (out.0 <==> a.user == s.auth.user && a.host == s.auth.host)
                        && out.1 == if a != s.auth || !mine then t
                                    else t.(slots := t.slots[i := Slot(a, l, s.count + 1)]))
                  && (!live ==>
                        var pid := if s.auth.pid == t.interactivePid then -1 else t.interactivePid;
                        var erased := t.slots[i := Slot(Auth("", "", 0), NoLevel, 0)];
                        var j := if t.slots[0].level == NoLevel then 0 else i;
                        out == (true, Table(if l == Shim || pid < 0 then erased[j := Slot(a, l, 1)] else erased, pid))))
  {
  }

  /** ... and reserving one that nobody has: it is granted to any user who may have the console, and recorded
      unless it is acquisition and somebody is at it already. */
  lemma ReserveFirst(t: Table, w: World, a: Auth, l: Level)
    requires Inv(t) && (l == Shim || l == Acquire) && a.pid != 0 && t.slots[0].level != l && t.slots[1].level != l
    ensures var out, j := Reserve(t, w, a, l), if t.slots[0].level == NoLevel then 0 else 1;
            if w.active && a.user != w.activeUser then out == (false, t)
            else out == (true, if l == Acquire && t.interactivePid >= 0 then t
                               else t.(slots := t.slots[j := Slot(a, l, 1)]))
  {
  }

  /** Releasing a level: nothing where nobody has it, refused where another record has it; otherwise the
      record goes, and the level with the last count. */
  lemma ReleaseDoes(t: Table, a: Auth, l: Level, i: nat)
    requires Inv(t) && (l == Shim || l == Acquire) && a.pid != 0 && i < 2
    ensures t.slots[0].level != l && t.slots[1].level != l ==> Release(t, a, l) == (true, t)
    ensures t.slots[i].level == l ==>
              var n := t.slots[i].count;
              Release(t, a, l) ==
              if t.slots[i].auth != a then (false, t)
              else (true, t.(slots := t.slots[i := Slot(Auth("", "", 0), if n == 1 then NoLevel else l, n - 1)]))
  {
  }

  /** Releasing no level in particular takes every record of the process. */
  lemma ReleaseAllDoes(t: Table, a: Auth)
    requires Inv(t) && a.pid != 0
    ensures var out := Release(t, a, NoLevel);
            && out.0 && out.1.interactivePid == t.interactivePid
            && forall i :: 0 <= i < 2 ==>
                 var s := t.slots[i];
                 out.1.slots[i] == if s.auth != a then s
                                   else Slot(Auth("", "", 0), if s.count == 1 then NoLevel else s.level, s.count - 1)
  {
    if t.slots[0].auth == a {
      var u := ClearIndex(t, 0);
      assert AtRecord(t, a) == 0 && ClearRecord(t, a) == ClearRecord(u, a);
      if u.slots[1].auth == a {
        assert AtRecord(u, a) == 1 && ClearRecord(u, a) == ClearRecord(ClearIndex(u, 1), a) == ClearIndex(u, 1);
      }
    } else if t.slots[1].auth == a {
      var u := ClearIndex(t, 1);
      assert AtRecord(t, a) == 1 && ClearRecord(t, a) == ClearRecord(u, a) == u;
    }
  }

  /** Acquiring interactively: only while no experiment is under way, and by nobody but the user and host that
      have acquisition, if their process is there. */
  lemma StartDoes(t: Table, w: World, a: Auth, able: bool)
    requires Inv(t)
    ensures var out := StartInteract(t, w, a, able);
            && (out.0 <==>
                  && !w.active && able
                  && forall i :: 0 <= i < 2 && t.slots[i].level == Acquire ==>
                       var r := t.slots[i].auth;
                       r.user == "" || r.pid <= 0 || r.pid !in w.alive || (a.user == r.user && a.host == r.host))
            && (out.0 ==> out.1.interactivePid == a.pid)
            && (out.0 && t.slots[0].level != Acquire && t.slots[1].level != Acquire ==>
                  out.1.slots == t.slots[(if t.slots[0].level == NoLevel then 0 else 1) := Slot(a, Acquire, 1)])
            && forall i :: 0 <= i < 2 && out.0 && t.slots[i].level == Acquire ==>
                 var r := t.slots[i].auth;
                 out.1.slots == if r.user != "" && r.pid > 0 && r.pid in w.alive then t.slots
                                else t.slots[i := Slot(Auth("", "", 0), NoLevel, 0)]
  {
  }

  /** The end of the experiment takes one count of acquisition, and its record. */
  lemma FinishDoes(t: Table, i: nat)
    requires Inv(t) && i < 2
    ensures Finish(t).interactivePid == -1
    ensures t.slots[0].level != Acquire && t.slots[1].level != Acquire ==> Finish(t).slots == t.slots
    ensures t.slots[i].level == Acquire ==>
              var n := t.slots[i].count;
              Finish(t).slots == t.slots[i := Slot(Auth("", "", 0), if n == 1 then NoLevel else Acquire, n - 1)]
  {
  }

  /** While r lives and has not given it up, its level is granted to no other user. */
  lemma NoTakeover(t: Table, es: seq<Event>, l: Level, r: Auth, w: World, a: Auth, able: bool)
    requires Inv(t) && Recognised(l) && Has(t, l, r) && r.pid != 0 && a.pid != 0
    requires forall i :: 0 <= i < |es| ==> GoodEvent(es[i]) && !GivesUp(es[i], l, r)
    requires r.user != "" && r.pid > 0 && r.pid in w.alive && a.user != r.user
    ensures !Reserve(AfterAll(t, es), w, a, l).0
    ensures l == Acquire ==> !StartInteract(AfterAll(t, es), w, a, able).0
  {
    OwnerStays(t, es, l, r);
    hide AfterAll;
    GrantedWhen(AfterAll(t, es), w, a, l, r);
  }

  // ----- where the count and the levels go wrong -------------------------------------------------------------

  /** A grant is recorded, unless it was made to another process of the user that has the level. */
  lemma GrantRecorded(t: Table, w: World, a: Auth, l: Level)
    requires Inv(t) && Recognised(l) && a.pid != 0 && Reserve(t, w, a, l).0
    requires l != Acquire || Verify(t, w, a, l).1.interactivePid < 0
    ensures var i := AtLevel(t, l);
            Has(Reserve(t, w, a, l).1, l, a) <==>
              i < 0 || !IsActive(t.slots[i].auth, w) || t.slots[i].auth.pid == a.pid
  {
  }

  /** How often a process has reserved a level that nobody else has. */
  predicate Counted(t: Table, l: Level, a: Auth, n: nat) {
    && |t.slots| == LEVELS
    && if n == 0 then AtLevel(t, l) < 0 else AtLevel(t, l) >= 0 && t.slots[AtLevel(t, l)] == Slot(a, l, n)
  }

  function ReserveTimes(t: Table, w: World, a: Auth, l: Level, k: nat): (r: Table)
    requires |t.slots| == LEVELS && a.pid != 0
    ensures |r.slots| == LEVELS
  {
    if k == 0 then t else Reserve(ReserveTimes(t, w, a, l, k - 1), w, a, l).1
  }

  function ReleaseTimes(t: Table, a: Auth, l: Level, k: nat): (r: Table)
    requires |t.slots| == LEVELS && a.pid != 0
    ensures |r.slots| == LEVELS
  {
    if k == 0 then t else Release(ReleaseTimes(t, a, l, k - 1), a, l).1
  }

  lemma ReserveCounts(t: Table, w: World, a: Auth, l: Level, n: nat)
    requires Inv(t) && Recognised(l) && IsActive(a, w) && UserOk(a.user, w) && (l == Acquire ==> t.interactivePid < 0)
    requires Counted(t, l, a, n)
    ensures var u := Reserve(t, w, a, l).1; Inv(u) && u.interactivePid == t.interactivePid && Counted(u, l, a, n + 1)
  {
    VerifyKeeps(t, w, a, l);
    StoreKeeps(t, a, l);
    if n == 0 { FreeSlot(t, l); }
  }

  lemma {:induction false} ReservesCount(t: Table, w: World, a: Auth, l: Level, n: nat, k: nat)
    requires Inv(t) && Recognised(l) && IsActive(a, w) && UserOk(a.user, w) && (l == Acquire ==> t.interactivePid < 0)
    requires Counted(t, l, a, n)
    ensures var u := ReserveTimes(t, w, a, l, k);
            Inv(u) && u.interactivePid == t.interactivePid && Counted(u, l, a, n + k)
  {
    hide Reserve, Counted;
    if k > 0 {
      ReservesCount(t, w, a, l, n, k - 1);
      ReserveCounts(ReserveTimes(t, w, a, l, k - 1), w, a, l, n + k - 1);
    }
  }

  /** Releasing once wipes the record: the level is free only if it was reserved once; else it stays taken
      with a record that is nobody's, and every later release is refused and changes nothing. */
  lemma {:induction false} ReleasesFree(t: Table, a: Auth, l: Level, n: nat, k: nat)
    requires Inv(t) && Recognised(l) && a.pid != 0 && n >= 1 && k >= 1 && Counted(t, l, a, n)
    ensures Release(t, a, l).0
    ensures var u := ReleaseTimes(t, a, l, k);
            && (AtLevel(u, l) < 0 <==> n == 1)
            && (n >= 2 ==> Counted(u, l, ZERO, n - 1) && u == Release(t, a, l).1)
            && (Release(u, a, l).0 <==> n == 1)
  {
    if k > 1 {
      ReleasesFree(t, a, l, n, k - 1);
      assert ReleaseTimes(t, a, l, k) == Release(ReleaseTimes(t, a, l, k - 1), a, l).1;
    } else {
      assert ReleaseTimes(t, a, l, 0) == t;
      var i := AtLevel(t, l);
      assert Release(t, a, l).1 == ClearIndex(t, i);
    }
  }

  /** "Each request for access must be matched by a release": after k reservations, on top of n, any number
      of releases frees the level if and only if it had been reserved once in all. */
  lemma SecondReleaseRefused(t: Table, w: World, a: Auth, l: Level, n: nat, k: nat, j: nat)
    requires Inv(t) && Recognised(l) && IsActive(a, w) && UserOk(a.user, w) && (l == Acquire ==> t.interactivePid < 0)
    requires Counted(t, l, a, n) && n + k >= 1 && j >= 1
    ensures var u := ReleaseTimes(ReserveTimes(t, w, a, l, k), a, l, j);
            && (AtLevel(u, l) < 0 <==> n + k == 1)
            && (Has(u, l, ZERO) <==> n + k >= 2)
            && (Release(u, a, l).0 <==> n + k == 1)
  {
    hide Release, Reserve;
    ReservesCount(t, w, a, l, n, k);
    ReleasesFree(ReserveTimes(t, w, a, l, k), a, l, n + k, j);
  }

  /** A level that was not recognised is refused and recorded all the same, just when the user may have
      the console and a slot is free; only then is the table no longer sound. */
  lemma UnrecognisedStored(t: Table, w: World, a: Auth)
    requires Inv(t) && a.pid != 0
    ensures var u := Reserve(t, w, a, Unrecognised).1;
            && (Inv(u) <==> !UserOk(a.user, w) || AtLevel(t, NoLevel) < 0)
            && (Inv(u) ==> u == t)
            && (!Inv(u) ==> u.slots == t.slots[AtLevel(t, NoLevel) := Slot(a, Unrecognised, 1)])
  {
  }

  /** Such a slot costs the next level its record: in whatever table, acquisition that nobody has is
      granted, and recorded just when a slot is free. */
  lemma UnrecognisedFills(t: Table, w: World, c: Auth)
    requires |t.slots| == LEVELS && c.pid != 0 && AtLevel(t, Acquire) < 0 && UserOk(c.user, w) && t.interactivePid < 0
    ensures var r := Reserve(t, w, c, Acquire);
            && r.0 && (Has(r.1, Acquire, c) <==> AtLevel(t, NoLevel) >= 0)
            && (AtLevel(t, NoLevel) < 0 ==> r.1 == t)
  {
  }

  /** Releasing everything by reserving no level works only from the second slot. */
  lemma ReserveNothing(t: Table, w: World, a: Auth)
    requires Inv(t) && a.pid != 0
    ensures Reserve(t, w, a, NoLevel).0 <==> t.slots[1].auth == a && t.slots[0].auth != a
  {
  }
}
