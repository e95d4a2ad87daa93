/** The phase tables of src/bpsg/phase.c: a fixed array of tables, each a cycle of phases and a
    flag that says whether a pulse of the sequence uses it.  A table's length is the length of its
    sequence; entries of the source's array past that length are never read. */
module Phase {
  const ZERO := 0
  const ONE := 1
  const TWO := 2
  const THREE := 3
  const T1 := 14
  const OPH := 24
  const TABLE_SIZE := 32

  datatype Table = Table(inUse: bool, phase: seq<int>)

  ghost predicate ValidTables(ts: seq<Table>) {
    |ts| == OPH + 1 && forall t :: 0 <= t < |ts| ==> 1 <= |ts[t].phase|
  }

  function InitialTable(t: nat, cpflag: bool): Table {
    if t == OPH then Table(true, if cpflag then [ZERO] else [ZERO, ONE, TWO, THREE])
    else if ONE <= t <= THREE then Table(false, [t])
    else Table(false, [0])
  }

  function InitialTables(cpflag: bool): seq<Table> {
    seq(OPH + 1, t requires 0 <= t => InitialTable(t, cpflag))
  }

  /** getPhase: the entry a pulse uses on pass number `index`; an unknown table means phase 0. */
  function PhaseAt(ts: seq<Table>, tab: int, index: nat): int
    requires ValidTables(ts)
  {
    if tab < ZERO || tab > OPH then 0 else ts[tab].phase[index % |ts[tab].phase|]
  }

  function WithTable(ts: seq<Table>, tab: nat, vals: seq<int>): seq<Table>
    requires tab < |ts|
  {
    ts[tab := ts[tab].(phase := vals)]
  }

  function WithInUse(ts: seq<Table>, tab: nat): seq<Table>
    requires tab < |ts|
  {
    ts[tab := ts[tab].(inUse := true)]
  }

  /** The longest cycle among the receiver table and the in-use tables T1 .. n-1. */
  function LongestBelow(ts: seq<Table>, n: nat): nat
    requires |ts| == OPH + 1 && T1 <= n <= OPH
  {
    if n == T1 then |ts[OPH].phase|
    else
      var m := LongestBelow(ts, n - 1);
      if ts[n - 1].inUse && |ts[n - 1].phase| > m then |ts[n - 1].phase| else m
  }

  function PhaseCycle(ts: seq<Table>): nat
    requires |ts| == OPH + 1
  {
    LongestBelow(ts, OPH)
  }

  /** The cycle is the least number no shorter than the receiver table and every in-use table. */
  lemma {:induction false} LongestIsLeastBound(ts: seq<Table>, n: nat, bound: nat)
    requires ValidTables(ts) && T1 <= n <= OPH
    ensures LongestBelow(ts, n) <= bound
            <==> |ts[OPH].phase| <= bound
                 && forall t :: T1 <= t < n && ts[t].inUse ==> |ts[t].phase| <= bound
  {
    if n > T1 {
      LongestIsLeastBound(ts, n - 1, bound);
    }
  }

  lemma PhaseCycleIsLeastBound(ts: seq<Table>, bound: nat)
    requires ValidTables(ts)
    ensures PhaseCycle(ts) <= bound
            <==> |ts[OPH].phase| <= bound
                 && forall t :: T1 <= t < OPH && ts[t].inUse ==> |ts[t].phase| <= bound
    ensures PhaseCycle(ts) >= 1
  {
    LongestIsLeastBound(ts, OPH, bound);
    LongestIsLeastBound(ts, OPH, 0);
  }

  class PhaseTables {
    const table: array<Table>

    ghost predicate Valid()
      reads this, table
    {
      table.Length == OPH + 1 && ValidTables(table[..])
    }

    constructor ()
      ensures Valid() && fresh(table)
    {
      table := new Table[OPH + 1](_ => Table(false, [0]));
    }

    method InitPhaseTables(cpflag: bool)
      requires table.Length == OPH + 1
      modifies table
      ensures Valid() && table[..] == InitialTables(cpflag)
      ensures table[24] == Table(true, if cpflag then [0] else [0, 1, 2, 3])
      ensures forall t :: 0 <= t < 24 ==> table[t] == Table(false, [if 1 <= t <= 3 then t else 0])
    {
      for i := ZERO to OPH + 1
        invariant forall t :: 0 <= t < i ==> table[t] == Table(false, [0])
      {
        table[i] := Table(false, [0]);
      }
      table[ONE] := table[ONE].(phase := [1]);
      table[TWO] := table[TWO].(phase := [2]);
      table[THREE] := table[THREE].(phase := [3]);
      if !cpflag {
        table[OPH] := Table(true, [ZERO, ONE, TWO, THREE]);
      } else {
        table[OPH] := Table(true, [ZERO]);
      }
      assert table[..] == InitialTables(cpflag);
    }

    method SetTable(tab: nat, vals: seq<int>)
      requires Valid() && tab <= OPH && 1 <= |vals| <= TABLE_SIZE
      modifies table
      ensures Valid() && table[..] == WithTable(old(table[..]), tab, vals)
      ensures table[tab] == Table(old(table[tab].inUse), vals)
      ensures forall t :: 0 <= t < table.Length && t != tab ==> table[t] == old(table[t])
    {
      table[tab] := table[tab].(phase := vals);
      assert table[..] == WithTable(old(table[..]), tab, vals);
    }

    method SetPhaseInUse(tab: nat)
      requires Valid() && tab <= OPH
      modifies table
      ensures Valid() && table[..] == WithInUse(old(table[..]), tab)
      ensures table[tab] == Table(true, old(table[tab].phase))
      ensures forall t :: 0 <= t < table.Length && t != tab ==> table[t] == old(table[t])
    {
      table[tab] := table[tab].(inUse := true);
      assert table[..] == WithInUse(old(table[..]), tab);
    }

    method GetPhase(tab: int, index: nat) returns (phase: int)
      requires Valid()
      ensures phase == PhaseAt(table[..], tab, index)
      ensures phase == if 0 <= tab <= 24 then table[tab].phase[index % |table[tab].phase|] else 0
    {
      if tab < ZERO || tab > OPH {
        return 0;
      }
      phase := table[tab].phase[index % |table[tab].phase|];
    }

    method GetRecPhase(index: nat) returns (phase: int)
      requires Valid()
      ensures phase == PhaseAt(table[..], OPH, index)
      ensures phase == table[24].phase[index % |table[24].phase|]
    {
      phase := table[OPH].phase[index % |table[OPH].phase|];
    }

    method MaxPhaseCycle() returns (max: nat)
      requires Valid()
      ensures max == PhaseCycle(table[..])
      ensures forall t :: t == 24 || (14 <= t < 24 && table[t].inUse) ==> |table[t].phase| <= max
      ensures exists t :: (t == 24 || (14 <= t < 24 && table[t].inUse)) && |table[t].phase| == max
    {
      max := |table[OPH].phase|;
      for i := T1 to OPH
        invariant max == LongestBelow(table[..], i)
        invariant |table[24].phase| <= max && forall t :: 14 <= t < i && table[t].inUse ==> |table[t].phase| <= max
        invariant exists t :: (t == 24 || (14 <= t < i && table[t].inUse)) && |table[t].phase| == max
      {
        if table[i].inUse && |table[i].phase| > max {
          max := |table[i].phase|;
        }
      }
    }
  }
}
