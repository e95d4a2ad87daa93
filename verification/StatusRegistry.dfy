/** logstatusport, rmstatusport, getlastRp and SendAcqStat over the list of packets on the heap. */
module StatusRegistry {
  import opened StatusPorts

  class RegPacket {
    var entry: Entry
    var nextrp: RegPacket?

    constructor (e: Entry)
      ensures entry == e && nextrp == null
    {
      entry, nextrp := e, null;
    }
  }

  class Registry {
    var first: RegPacket?
    ghost var nodes: seq<RegPacket>

    /** The packet at position i of the list, null at its end. */
    ghost function NodeAt(i: nat): RegPacket?
      reads this
    {
      if i < |nodes| then nodes[i] else null
    }

    /** The list runs through the nodes in order, and through none of them twice. */
    ghost predicate Valid()
      reads this, nodes
    {
      && first == NodeAt(0)
      && (forall i :: 0 <= i < |nodes| ==> nodes[i].nextrp == NodeAt(i + 1))
      && (forall i, j :: 0 <= i < j < |nodes| ==> nodes[i] != nodes[j])
    }

    ghost function Entries(): (es: seq<Entry>)
      reads this, nodes
      ensures |es| == |nodes|
    {
      seq(|nodes|, i requires 0 <= i < |nodes| reads this, nodes => nodes[i].entry)
    }

    constructor ()
      ensures Valid() && Entries() == []
    {
      first, nodes := null, [];
    }

    /** The packet with the key, the one before it, and its position. */
    method Search(k: Key) returns (p: RegPacket?, lastp: RegPacket?, i: nat)
      requires Valid()
      ensures i == Find(Entries(), k) && p == NodeAt(i) && (i > 0 ==> lastp == NodeAt(i - 1))
              && (i == 0 ==> lastp == null)
    {
      p, lastp, i := first, null, 0;
      while p != null && p.entry.key != k
        invariant i <= |nodes| && p == NodeAt(i)
        invariant (i > 0 ==> lastp == NodeAt(i - 1)) && (i == 0 ==> lastp == null)
        invariant forall j :: 0 <= j < i ==> Entries()[j].key != k
        decreases |nodes| - i
      {
        lastp, p, i := p, p.nextrp, i + 1;
      }
      FindIs(Entries(), k, i);
    }

    method GetLastRp() returns (p: RegPacket)
      requires Valid() && first != null
      ensures p == nodes[|nodes| - 1]
    {
      p := first;
      ghost var i := 0;
      while p.nextrp != null
        invariant i < |nodes| && p == nodes[i]
        decreases |nodes| - i
      {
        p, i := p.nextrp, i + 1;
      }
    }

    method Append(q: RegPacket)
      requires Valid() && q !in nodes && q.nextrp == null
      modifies this, nodes
      ensures Valid() && nodes == old(nodes) + [q] && Entries() == old(Entries()) + [q.entry] && q.entry == old(q.entry)
    {
      if first == null {
        first := q;
      } else {
        var last := GetLastRp();
        last.nextrp := q;
      }
      nodes := nodes + [q];
    }

    /** The packet p, at position i, is heard of again. */
    method Renew(p: RegPacket, ghost i: nat, now: int)
      requires Valid() && i < |nodes| && p == nodes[i]
      modifies p
      ensures Valid() && Entries() == old(Entries())[i := old(p.entry).(stamp := now)]
    {
      p.entry := p.entry.(stamp := now);
      assert forall j :: 0 <= j < |nodes| ==> nodes[j].nextrp == old(nodes[j].nextrp);
    }

    method LogStatusPort(k: Key, user: string, pid: int, now: int)
      requires Valid()
      modifies this, nodes
      ensures Valid() && Entries() == Logged(old(Entries()), k, user, pid, now)
      ensures (forall i :: 0 <= i < |old(nodes)| ==> old(Entries())[i].key != k) ==>
                Entries() == old(Entries()) + [Entry(k, user, pid, now)]
      ensures forall i :: 0 <= i < |old(nodes)| ==>
                var e := old(Entries())[i];
                Entries()[i] == if e.key == k && (forall j :: 0 <= j < i ==> old(Entries())[j].key != k)
                                then e.(stamp := now) else e
    {
      LoggedIs(Entries(), k, user, pid, now);
      hide Valid, Find, Entries;
      var p, lastp, i := Search(k);
      AtPosition(i, p);
      if p != null {
        Renew(p, i, now);
      } else {
        var q := new RegPacket(Entry(k, user, pid, now));
        Append(q);
      }
    }

    lemma AtPosition(i: nat, p: RegPacket?)
      requires Valid() && p == NodeAt(i)
      ensures |Entries()| == |nodes|
      ensures if p == null then i >= |nodes| else i < |nodes| && p == nodes[i] && p.entry == Entries()[i]
    {
    }

    /** The position of the packet removed, from 1; 0 when there is none. */
    method RmStatusPort(k: Key) returns (listpos: nat)
      requires Valid()
      modifies this, nodes
      ensures Valid() && Entries() == Removed(old(Entries()), k)
      ensures nodes == old(Without(Find(Entries(), k)))
      ensures listpos == (var i := Find(old(Entries()), k); if i < |old(nodes)| then i + 1 else 0)
      ensures listpos == 0 ==>
                Entries() == old(Entries()) && forall e :: e in old(Entries()) ==> e.key != k
      ensures listpos > 0 ==>
                && listpos <= |old(nodes)| && old(Entries())[listpos - 1].key == k
                && Entries() == old(Entries())[..listpos - 1] + old(Entries())[listpos..]
    {
      hide Valid, Find;
      var p, lastp, i := Search(k);
      if p == null {
        return 0;
      }
      Unlink(p, lastp, i);
      listpos := i + 1;
    }

    ghost function Without(i: nat): seq<RegPacket>
      reads this
    {
      if i < |nodes| then nodes[..i] + nodes[i + 1..] else nodes
    }

    method Unlink(p: RegPacket, lastp: RegPacket?, ghost i: nat)
      requires Valid() && i < |nodes| && p == nodes[i] && (i > 0 ==> lastp == nodes[i - 1])
               && (i == 0 ==> lastp == null)
      modifies this, nodes
      ensures Valid() && nodes == old(Without(i))
      ensures forall q :: q in old(nodes) ==> q.entry == old(q.entry)
    {
      ghost var was := nodes;
      if p == first {
        first := p.nextrp;
      } else {
        lastp.nextrp := p.nextrp;
      }
      nodes := nodes[..i] + nodes[i + 1..];
      forall j | 0 <= j < |nodes| ensures nodes[j].nextrp == NodeAt(j + 1) {
        assert nodes[j] == if j < i then was[j] else was[j + 1];
      }
    }

    /** Removes the expired packet p, and returns the one after it. */
    method Drop(p: RegPacket, ghost i: nat, ghost sent: seq<Key>, now: int, ghost all: Swept) returns (next: RegPacket?)
      requires Valid() && i < |nodes| && p == nodes[i] && Expired(p.entry, now)
      requires Standing(Entries(), i, sent, now, all)
      modifies this, nodes
      ensures Valid() && next == NodeAt(i) && nodes == old(Without(i))
      ensures if next == null then i == |nodes| && Standing(Entries(), i, sent, now, all)
              else Standing(Entries(), i + 1, sent + [next.entry.key], now, all)
    {
      ghost var es := Entries();
      StandingRemoves(es, i, sent, now, all);
      hide Sweep, Distinct, Removed, Find, Standing;
      next := p.nextrp;
      var pos := RmStatusPort(p.entry.key);
      assert Entries() == es[..i] + es[i + 1..];
      assert next != null ==> Entries()[i] == next.entry;
    }

    /** The packet to send to at position i, once an expired one is out of the way. */
    method Visit(p: RegPacket, ghost i: nat, ghost sent: seq<Key>, now: int, ghost all: Swept) returns (q: RegPacket?)
      requires Valid() && i < |nodes| && p == nodes[i] && Standing(Entries(), i, sent, now, all)
      modifies this, nodes
      ensures Valid() && q == NodeAt(i) && |nodes| <= |old(nodes)|
      ensures forall j :: 0 <= j < |nodes| ==> nodes[j] in old(nodes)
      ensures if q == null then i == |nodes| && Standing(Entries(), i, sent, now, all)
              else Standing(Entries(), i + 1, sent + [q.entry.key], now, all)
    {
      hide Sweep, Distinct, Standing;
      if Expired(p.entry, now) {
        q := Drop(p, i, sent, now, all);
      } else {
        assert Entries()[i] == p.entry;
        StandingSends(Entries(), i, sent, now, all);
        q := p;
      }
    }

    lemma AtHead()
      requires Valid()
      ensures first == NodeAt(0) && (first == null ==> |nodes| == 0)
              && (first != null ==> |nodes| > 0 && first == nodes[0])
    {
    }

    lemma AtNode(i: nat, p: RegPacket)
      requires Valid() && p == NodeAt(i)
      ensures i < |nodes| && p == nodes[i] && p.nextrp == NodeAt(i + 1)
      ensures if i + 1 < |nodes| then p.nextrp == nodes[i + 1] else p.nextrp == null && i + 1 == |nodes|
    {
    }

    /** One sweep: drops what has expired and sends to the rest. */
    method SendAcqStat(now: int) returns (sent: seq<Key>)
      requires Valid() && Distinct(Entries())
      modifies this, nodes
      ensures Valid() && Distinct(Entries()) && Swept(Entries(), sent) == Sweep(old(Entries()), now)
      ensures forall e :: e in old(Entries()) && now - e.stamp <= 600 ==> e in Entries()
      ensures |sent| == |Entries()| && forall i :: 0 <= i < |sent| ==> sent[i] == Entries()[i].key
    {
      hide Valid, NodeAt, Entries, Sweep, Distinct, Standing, Expired;
      ghost var all := Sweep(Entries(), now);
      StandingAtStart(Entries(), now);
      sent := [];
      var p := first;
      ghost var i := 0;
      AtHead();
      while p != null
        invariant Valid() && p == NodeAt(i) && i <= |nodes|
        invariant p != null ==> i < |nodes| && p == nodes[i]
        invariant p == null ==> i == |nodes|
        invariant forall j :: 0 <= j < |nodes| ==> nodes[j] in old(nodes)
        invariant Standing(Entries(), i, sent, now, all)
        decreases |nodes| - i
      {
        p := Visit(p, i, sent, now, all);
        if p == null {
          break;
        }
        sent := sent + [p.entry.key];
        AtNode(i, p);
        p, i := p.nextrp, i + 1;
      }
      StandingAtEnd(Entries(), sent, now, all);
      SweepSends(old(Entries()), now);
    }
  }

  lemma SweepSends(es: seq<Entry>, now: int)
    ensures forall e :: e in es && now - e.stamp <= 600 ==> e in Sweep(es, now).kept
    ensures |Sweep(es, now).sent| == |Sweep(es, now).kept|
    ensures forall i :: 0 <= i < |Sweep(es, now).sent| ==> Sweep(es, now).sent[i] == Sweep(es, now).kept[i].key
  {
    SentIsKept(es, now);
    forall i: nat | i < |es| && now - es[i].stamp <= 600 ensures es[i] in Sweep(es, now).kept {
      FreshKept(es, now, i);
    }
    hide Sweep;
  }

  /** Only the first entry with the key changes, and only its time; without one, a new entry comes last. */
  lemma LoggedIs(es: seq<Entry>, k: Key, user: string, pid: int, now: int)
    ensures (forall i :: 0 <= i < |es| ==> es[i].key != k) ==>
              Logged(es, k, user, pid, now) == es + [Entry(k, user, pid, now)]
    ensures |Logged(es, k, user, pid, now)| >= |es|
    ensures forall i :: 0 <= i < |es| ==>
              Logged(es, k, user, pid, now)[i] ==
              if es[i].key == k && (forall j :: 0 <= j < i ==> es[j].key != k) then es[i].(stamp := now) else es[i]
  {
    hide Find;
    var f := Find(es, k);
    forall i | 0 <= i < |es|
      ensures i == f <==> es[i].key == k && forall j :: 0 <= j < i ==> es[j].key != k
    {
      if i > f { assert es[f].key == k; }
    }
  }
}
