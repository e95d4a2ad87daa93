/** The registry of display ports in src/infoproc/infoqueu.c: a linked list on the heap that stands
    for an ordered table of (host, port) keys. */
module StatusPorts {
  const TESTINTERVAL := 600

  datatype Key = Key(host: string, port: int)

  datatype Entry = Entry(key: Key, user: string, pid: int, stamp: int)

  // ----- the table as a value -----------------------------------------------------------------------------

  /** The position of the key, or the length of the table. */
  function Find(es: seq<Entry>, k: Key): (i: nat)
    ensures i <= |es| && (i < |es| ==> es[i].key == k)
    ensures forall j :: 0 <= j < i ==> es[j].key != k
  {
    if es == [] || es[0].key == k then 0
    else
      var i := Find(es[1..], k);
      assert forall j :: 1 <= j < i + 1 ==> es[j] == es[1..][j - 1];
      i + 1
  }

  lemma FindIs(es: seq<Entry>, k: Key, i: nat)
    requires i <= |es| && (i < |es| ==> es[i].key == k) && forall j :: 0 <= j < i ==> es[j].key != k
    ensures Find(es, k) == i
  {
    var f := Find(es, k);
    assert f < |es| ==> es[f].key == k;
  }

  ghost predicate Distinct(es: seq<Entry>) {
    forall i, j :: 0 <= i < j < |es| ==> es[i].key != es[j].key
  }

  /** A known key only has its time renewed; a new one comes last. */
  function Logged(es: seq<Entry>, k: Key, user: string, pid: int, now: int): seq<Entry> {
    var i := Find(es, k);
    if i < |es| then es[i := es[i].(stamp := now)] else es + [Entry(k, user, pid, now)]
  }

  function Removed(es: seq<Entry>, k: Key): seq<Entry> {
    var i := Find(es, k);
    if i < |es| then es[..i] + es[i + 1..] else es
  }

  predicate Expired(e: Entry, now: int) {
    now - e.stamp > TESTINTERVAL
  }

  function Keys(es: seq<Entry>): seq<Key> {
    seq(|es|, i requires 0 <= i < |es| => es[i].key)
  }

  lemma LoggedKeeps(es: seq<Entry>, k: Key, user: string, pid: int, now: int)
    requires Distinct(es)
    ensures Distinct(Logged(es, k, user, pid, now))
    ensures Keys(Logged(es, k, user, pid, now)) == if k in Keys(es) then Keys(es) else Keys(es) + [k]
  {
    var i := Find(es, k);
    if i < |es| {
      assert Keys(es)[i] == k;
    } else {
      assert k !in Keys(es);
    }
  }

  lemma RemovedKeeps(es: seq<Entry>, k: Key)
    requires Distinct(es)
    ensures Distinct(Removed(es, k)) && k !in Keys(Removed(es, k))
  {
    var i, r := Find(es, k), Removed(es, k);
    hide Find;
    if i < |es| {
      forall j | 0 <= j < |r| ensures r[j].key != k {
        assert r[j] == es[if j < i then j else j + 1];
      }
    }
  }

  /** Everything but the key stays, in its order. */
  lemma RemovedOnly(es: seq<Entry>, k: Key, j: nat)
    requires Distinct(es) && j < |es|
    ensures var i := Find(es, k);
            && |Removed(es, k)| == (if i < |es| then |es| - 1 else |es|)
            && (es[j].key != k ==> j != i && Removed(es, k)[if j < i then j else j - 1] == es[j])
  {
    hide Distinct;
  }

  // ----- one sweep ------------------------------------------------------------------------------------------

  datatype Swept = Swept(kept: seq<Entry>, sent: seq<Key>)

  /** SendAcqStat from the first entry of es on.  After an expired entry the next is sent to without a
      look at its own time. */
  function Sweep(es: seq<Entry>, now: int): Swept {
    if es == [] then Swept([], [])
    else if !Expired(es[0], now) then
      var s := Sweep(es[1..], now);
      Swept([es[0]] + s.kept, [es[0].key] + s.sent)
    else if |es| == 1 then Swept([], [])
    else
      var s := Sweep(es[2..], now);
      Swept([es[1]] + s.kept, [es[1].key] + s.sent)
  }

  /** What the sweep makes of es when it stands at i, with `sent` so far. */
  ghost predicate Standing(es: seq<Entry>, i: nat, sent: seq<Key>, now: int, all: Swept) {
    && i <= |es| && Distinct(es)
    && es[..i] + Sweep(es[i..], now).kept == all.kept
    && sent + Sweep(es[i..], now).sent == all.sent
  }

  lemma StandingAtStart(es: seq<Entry>, now: int)
    requires Distinct(es)
    ensures Standing(es, 0, [], now, Sweep(es, now))
  {
    assert es[0..] == es && es[..0] == [];
    assert [] + Sweep(es, now).kept == Sweep(es, now).kept && [] + Sweep(es, now).sent == Sweep(es, now).sent;
  }

  lemma StandingAtEnd(es: seq<Entry>, sent: seq<Key>, now: int, all: Swept)
    requires Standing(es, |es|, sent, now, all)
    ensures all == Swept(es, sent) && Distinct(es)
  {
    assert es[|es|..] == [] && es[..|es|] == es;
  }

  lemma StandingSends(es: seq<Entry>, i: nat, sent: seq<Key>, now: int, all: Swept)
    requires Standing(es, i, sent, now, all) && i < |es| && !Expired(es[i], now)
    ensures Standing(es, i + 1, sent + [es[i].key], now, all)
  {
    var s := Sweep(es[i + 1..], now);
    assert es[i..][1..] == es[i + 1..];
    assert es[..i + 1] + s.kept == es[..i] + ([es[i]] + s.kept);
    assert sent + [es[i].key] + s.sent == sent + ([es[i].key] + s.sent);
  }

  lemma RemovesAt(es: seq<Entry>, i: nat)
    requires Distinct(es) && i < |es|
    ensures Find(es, es[i].key) == i && Removed(es, es[i].key) == es[..i] + es[i + 1..]
    ensures Distinct(es[..i] + es[i + 1..])
  {
    FindIs(es, es[i].key, i);
    DistinctWithout(es, i);
    hide Find, Distinct;
  }

  lemma Skipped(es: seq<Entry>, i: nat, j: nat)
    requires i < |es| && j < |es| - 1
    ensures (es[..i] + es[i + 1..])[j] == es[if j < i then j else j + 1]
  {
  }

  lemma DistinctWithout(es: seq<Entry>, i: nat)
    requires Distinct(es) && i < |es|
    ensures Distinct(es[..i] + es[i + 1..])
  {
    var rest := es[..i] + es[i + 1..];
    forall j, k | 0 <= j < k < |rest| ensures rest[j].key != rest[k].key {
      Skipped(es, i, j);
      Skipped(es, i, k);
    }
  }

  lemma Shuffle<T>(a: seq<T>, x: T, b: seq<T>)
    ensures a + [x] + b == a + ([x] + b)
  {
  }

  /** The expired entry is removed, and the next, if there is one, sent to. */
  lemma StandingRemoves(es: seq<Entry>, i: nat, sent: seq<Key>, now: int, all: Swept)
    requires Standing(es, i, sent, now, all) && i < |es| && Expired(es[i], now)
    ensures Find(es, es[i].key) == i && Removed(es, es[i].key) == es[..i] + es[i + 1..]
    ensures var rest := es[..i] + es[i + 1..];
            if i < |rest| then Standing(rest, i + 1, sent + [rest[i].key], now, all)
            else Standing(rest, i, sent, now, all)
  {
    RemovesAt(es, i);
    hide Distinct, Find, Removed;
    var rest := es[..i] + es[i + 1..];
    if i < |rest| {
      var s := Sweep(es[i + 2..], now);
      assert es[i..][1] == rest[i] == es[i + 1] && es[i..][2..] == es[i + 2..];
      assert Sweep(es[i..], now) == Swept([rest[i]] + s.kept, [rest[i].key] + s.sent);
      hide Sweep, Expired;
      assert rest[i + 1..] == es[i + 2..] && rest[..i + 1] == es[..i] + [rest[i]];
      Shuffle(es[..i], rest[i], s.kept);
      Shuffle(sent, rest[i].key, s.sent);
    } else {
      assert rest[..i] == es[..i] && rest[i..] == [];
    }
  }

  function Fresh(es: seq<Entry>, now: int): seq<Entry> {
    if es == [] then []
    else if Expired(es[0], now) then Fresh(es[1..], now)
    else [es[0]] + Fresh(es[1..], now)
  }

  /** Two expired entries, one after the other. */
  ghost predicate ExpiredPair(es: seq<Entry>, now: int) {
    exists i :: 0 <= i < |es| - 1 && Expired(es[i], now) && Expired(es[i + 1], now)
  }

  /** Whoever is kept is sent to, once and in order, and nobody else is. */
  lemma {:induction false} SentIsKept(es: seq<Entry>, now: int)
    ensures Sweep(es, now).sent == Keys(Sweep(es, now).kept)
    decreases |es|
  {
    if es != [] {
      if !Expired(es[0], now) {
        SentIsKept(es[1..], now);
        KeysFirst(es[0], Sweep(es[1..], now).kept);
      } else if |es| > 1 {
        SentIsKept(es[2..], now);
        KeysFirst(es[1], Sweep(es[2..], now).kept);
      }
    }
  }

  lemma {:induction false} KeptAmong(es: seq<Entry>, now: int, e: Entry)
    requires e in Sweep(es, now).kept
    ensures e in es
    decreases |es|
  {
    if !Expired(es[0], now) {
      if e != es[0] { KeptAmong(es[1..], now, e); }
    } else {
      if e != es[1] { KeptAmong(es[2..], now, e); }
    }
  }

  /** The keys that are kept stay distinct, so nobody is sent to twice, and the next sweep can follow. */
  lemma {:induction false} SweepKeepsDistinct(es: seq<Entry>, now: int)
    requires Distinct(es)
    ensures Distinct(Sweep(es, now).kept)
    decreases |es|
  {
    if es != [] {
      if !Expired(es[0], now) {
        DistinctAfter(es, 0);
        SweepKeepsDistinct(es[1..], now);
        FirstIsNew(es, 0, Sweep(es[1..], now).kept, now);
      } else if |es| > 1 {
        DistinctAfter(es, 1);
        SweepKeepsDistinct(es[2..], now);
        FirstIsNew(es, 1, Sweep(es[2..], now).kept, now);
      }
    }
  }

  lemma DistinctAfter(es: seq<Entry>, i: nat)
    requires Distinct(es) && i < |es|
    ensures Distinct(es[i + 1..])
  {
    var rest := es[i + 1..];
    forall j, k | 0 <= j < k < |rest| ensures rest[j].key != rest[k].key {
      assert es[i + 1 + j].key != es[i + 1 + k].key;
    }
  }

  lemma FirstIsNew(es: seq<Entry>, i: nat, kept: seq<Entry>, now: int)
    requires Distinct(es) && i < |es| && Distinct(kept) && kept == Sweep(es[i + 1..], now).kept
    ensures Distinct([es[i]] + kept)
  {
    hide Sweep;
    forall j | 0 <= j < |kept| ensures kept[j].key != es[i].key {
      KeptAmong(es[i + 1..], now, kept[j]);
      var m :| 0 <= m < |es| - i - 1 && es[i + 1..][m] == kept[j];
      assert es[i + 1 + m].key != es[i].key;
    }
  }

  lemma KeysFirst(e: Entry, es: seq<Entry>)
    ensures Keys([e] + es) == [e.key] + Keys(es)
  {
  }

  /** Every entry that has not expired is kept, hence sent to. */
  lemma {:induction false} FreshKept(es: seq<Entry>, now: int, i: nat)
    requires i < |es| && now - es[i].stamp <= 600
    ensures es[i] in Sweep(es, now).kept
    decreases |es|
  {
    if !Expired(es[0], now) {
      if i > 0 { FreshKept(es[1..], now, i - 1); }
    } else {
      if i > 1 { FreshKept(es[2..], now, i - 2); }
    }
  }

  /** The sweep keeps just the entries that have not expired, unless two expired ones are neighbours. */
  lemma {:induction false} SweepIsFresh(es: seq<Entry>, now: int)
    ensures Sweep(es, now).kept == Fresh(es, now) <==> !ExpiredPair(es, now)
    decreases |es|
  {
    if es == [] {
    } else if !Expired(es[0], now) {
      SweepIsFresh(es[1..], now);
      PairAfter(es, now);
      SameTail(es[0], Sweep(es[1..], now).kept, Fresh(es[1..], now));
    } else if |es| > 1 {
      if Expired(es[1], now) {
        KeptLonger(es[2..], now);
        assert ExpiredPair(es, now);
      } else {
        SweepIsFresh(es[2..], now);
        PairAfter(es, now);
        PairAfter(es[1..], now);
        assert es[1..][1..] == es[2..];
        SameTail(es[1], Sweep(es[2..], now).kept, Fresh(es[2..], now));
      }
    }
  }

  lemma SameTail(e: Entry, a: seq<Entry>, b: seq<Entry>)
    ensures [e] + a == [e] + b <==> a == b
  {
    assert ([e] + a)[1..] == a && ([e] + b)[1..] == b;
  }

  lemma PairAfter(es: seq<Entry>, now: int)
    requires es != [] && !(|es| > 1 && Expired(es[0], now) && Expired(es[1], now))
    ensures ExpiredPair(es, now) <==> ExpiredPair(es[1..], now)
  {
    if ExpiredPair(es[1..], now) {
      var i :| 0 <= i < |es| - 2 && Expired(es[1..][i], now) && Expired(es[1..][i + 1], now);
      assert Expired(es[i + 1], now) && Expired(es[i + 1 + 1], now);
    }
    if ExpiredPair(es, now) {
      var i :| 0 <= i < |es| - 1 && Expired(es[i], now) && Expired(es[i + 1], now);
      assert Expired(es[1..][i - 1], now) && Expired(es[1..][i - 1 + 1], now);
    }
  }

  lemma {:induction false} KeptLonger(es: seq<Entry>, now: int)
    ensures |Sweep(es, now).kept| >= |Fresh(es, now)|
    decreases |es|
  {
    if es != [] {
      if !Expired(es[0], now) {
        KeptLonger(es[1..], now);
      } else if |es| > 1 {
        KeptLonger(es[2..], now);
        assert es[1..][1..] == es[2..];
      }
    }
  }

  /** Fresh entries are sent to in their place, and after one of more than 600 seconds the next is sent to
      whatever its age; the old one is dropped. */
  lemma SweepFirst(es: seq<Entry>, now: int)
    requires es != []
    ensures now - es[0].stamp <= 600 ==>
              && Sweep(es, now).kept == [es[0]] + Sweep(es[1..], now).kept
              && Sweep(es, now).sent == [es[0].key] + Sweep(es[1..], now).sent
    ensures now - es[0].stamp > 600 && |es| == 1 ==> Sweep(es, now).kept == [] && Sweep(es, now).sent == []
    ensures now - es[0].stamp > 600 && |es| > 1 ==>
              && Sweep(es, now).kept == [es[1]] + Sweep(es[2..], now).kept
              && Sweep(es, now).sent == [es[1].key] + Sweep(es[2..], now).sent
  {
  }
}
