/** cal_dps_timer of src/bpsg/xmath.c: the time of an arrayed experiment, summed over the values of
    every arrayed parameter, with a shortcut for the evolution delays d2, d3 and d4. */
module DpsTimer {
  datatype Value = Num(x: real) | Str(s: string)

  type Env = map<string, Value>

  datatype Entry = Entry(name: string, vals: seq<Value>)

  /** One nesting level: parameters that step together, or an evolution delay. */
  datatype Level =
    | Sweep(entries: seq<Entry>, size: nat)
    | Ni(name: string, first: real, step: real, size: nat)

  predicate ValidLevel(l: Level) {
    l.Sweep? ==> forall i :: 0 <= i < |l.entries| ==> l.size <= |l.entries[i].vals|
  }

  predicate ValidLevels(ls: seq<Level>) {
    forall i :: 0 <= i < |ls| ==> ValidLevel(ls[i])
  }

  // ----- what the code computes -------------------------------------------------------------------------

  predicate Row(entries: seq<Entry>, k: nat) {
    forall i :: 0 <= i < |entries| ==> k < |entries[i].vals|
  }

  function SetRow(env: Env, entries: seq<Entry>, k: nat): Env
    requires Row(entries, k)
    decreases |entries|
  {
    if entries == [] then env
    else SetRow(env[entries[0].name := entries[0].vals[k]], entries[1..], k)
  }

  function Times(n: nat, t: real): real {
    n as real * t
  }

  function Delay(l: Level, k: nat): real
    requires l.Ni?
  {
    l.first + Times(k, l.step)
  }

  function Last(l: Level): real
    requires l.Ni?
  {
    l.first + (l.size as real - 1.0) * l.step
  }

  datatype Cost = Cost(time: real, env: Env)

  /** The first call under an evolution delay is made with whatever value the delay then has. */
  function Cal(ls: seq<Level>, leaf: Env -> real, env: Env): Cost
    requires ValidLevels(ls)
    decreases |ls|, 1, 0
  {
    if ls == [] then Cost(leaf(env), env)
    else if ls[0].Sweep? then CalRows(ls, leaf, env, 0)
    else
      var a := Cal(ls[1..], leaf, env);
      var b := Cal(ls[1..], leaf, a.env[ls[0].name := Num(Last(ls[0]))]);
      Cost(Times(ls[0].size, a.time + b.time) / 2.0, b.env)
  }

  function CalRows(ls: seq<Level>, leaf: Env -> real, env: Env, k: nat): Cost
    requires ValidLevels(ls) && ls != [] && ls[0].Sweep? && k <= ls[0].size
    decreases |ls|, 0, ls[0].size - k
  {
    if k == ls[0].size then Cost(0.0, env)
    else
      var a := Cal(ls[1..], leaf, SetRow(env, ls[0].entries, k));
      var b := CalRows(ls, leaf, a.env, k + 1);
      Cost(a.time + b.time, b.env)
  }

  class Timer {
    const levels: seq<Level>
    const leaf: Env -> real
    var env: Env

    constructor (ls: seq<Level>, scan: Env -> real, start: Env)
      ensures levels == ls && leaf == scan && env == start
    {
      levels, leaf, env := ls, scan, start;
    }

    method SetLevel(entries: seq<Entry>, k: nat)
      requires Row(entries, k)
      modifies this
      ensures env == SetRow(old(env), entries, k)
      ensures forall i ::
                0 <= i < |entries| && (forall j :: i < j < |entries| ==> entries[j].name != entries[i].name) ==>
                entries[i].name in env && env[entries[i].name] == entries[i].vals[k]
      ensures forall v :: (forall i :: 0 <= i < |entries| ==> entries[i].name != v) ==>
                (v in env <==> v in old(env)) && (v in env ==> env[v] == old(env)[v])
    {
      ghost var was := env;
      for i := 0 to |entries|
        invariant SetRow(env, entries[i..], k) == SetRow(old(env), entries, k)
      {
        env := env[entries[i].name := entries[i].vals[k]];
      }
      RowHolds(was, entries, k);
      RowLeaves(was, entries, k);
    }

    method CalDpsTimer(id: nat) returns (t: real)
      requires id <= |levels| && ValidLevels(levels)
      modifies this
      ensures t == Cal(levels[id..], leaf, old(env)).time
      ensures env == Cal(levels[id..], leaf, old(env)).env
      decreases |levels| - id, 1
    {
      if id == |levels| {
        return leaf(env);
      }
      var l := levels[id];
      assert levels[id..][1..] == levels[id + 1..];
      hide SetRow;
      if l.Ni? {
        t := CalDpsTimer(id + 1);
        env := env[l.name := Num(Last(l))];
        var t1 := CalDpsTimer(id + 1);
        t := Times(l.size, t + t1) / 2.0;
      } else {
        t := 0.0;
        for k := 0 to l.size
          invariant t + CalRows(levels[id..], leaf, env, k).time == Cal(levels[id..], leaf, old(env)).time
          invariant CalRows(levels[id..], leaf, env, k).env == Cal(levels[id..], leaf, old(env)).env
        {
          var t1 := TimeRow(id, k);
          t := t + t1;
        }
      }
    }

    /** All that lies under one row of a loop. */
    method TimeRow(id: nat, k: nat) returns (t: real)
      requires id < |levels| && ValidLevels(levels) && levels[id].Sweep? && k < levels[id].size
      modifies this
      ensures t == Cal(levels[id + 1..], leaf, SetRow(old(env), levels[id].entries, k)).time
      ensures env == Cal(levels[id + 1..], leaf, SetRow(old(env), levels[id].entries, k)).env
      decreases |levels| - id, 0
    {
      SetLevel(levels[id].entries, k);
      t := CalDpsTimer(id + 1);
    }
  }

  // ----- what it should compute -------------------------------------------------------------------------

  /** The sum of the leaf times over every combination of values. */
  function Exact(ls: seq<Level>, leaf: Env -> real, env: Env): real
    requires ValidLevels(ls)
    decreases |ls|, 1, 0
  {
    if ls == [] then leaf(env) else ExactRows(ls, leaf, env, 0)
  }

  function ExactRows(ls: seq<Level>, leaf: Env -> real, env: Env, k: nat): real
    requires ValidLevels(ls) && ls != [] && k <= ls[0].size
    decreases |ls|, 0, ls[0].size - k
  {
    if k == ls[0].size then 0.0
    else Exact(ls[1..], leaf, AtRow(env, ls[0], k)) + ExactRows(ls, leaf, env, k + 1)
  }

  function AtRow(env: Env, l: Level, k: nat): Env
    requires ValidLevel(l) && k < l.size
  {
    if l.Sweep? then SetRow(env, l.entries, k) else env[l.name := Num(Delay(l, k))]
  }

  // ----- which parameters a level sets --------------------------------------------------------------------

  function EntryNames(entries: seq<Entry>): set<string> {
    set i | 0 <= i < |entries| :: entries[i].name
  }

  function LevelNames(l: Level): set<string> {
    if l.Sweep? then EntryNames(l.entries) else {l.name}
  }

  function Names(ls: seq<Level>): set<string> {
    if ls == [] then {} else LevelNames(ls[0]) + Names(ls[1..])
  }

  ghost predicate Same(e: Env, f: Env, v: string) {
    (v in e <==> v in f) && (v in e ==> e[v] == f[v])
  }

  ghost predicate AgreeOff(e: Env, f: Env, names: set<string>) {
    forall v :: v !in names ==> Same(e, f, v)
  }

  lemma UpdateAgrees(e: Env, f: Env, v: string, x: Value, names: set<string>)
    requires forall w :: w !in names && w != v ==> Same(e, f, w)
    ensures AgreeOff(e[v := x], f[v := x], names)
  {
    forall w | w !in names ensures Same(e[v := x], f[v := x], w) {
      if w != v { assert Same(e, f, w); }
    }
  }

  lemma {:induction false} SetRowAgrees(e: Env, f: Env, entries: seq<Entry>, k: nat, names: set<string>)
    requires Row(entries, k) && AgreeOff(e, f, names + EntryNames(entries))
    ensures AgreeOff(SetRow(e, entries, k), SetRow(f, entries, k), names)
    decreases |entries|
  {
    if entries != [] {
      var h := entries[0];
      var e1, f1 := e[h.name := h.vals[k]], f[h.name := h.vals[k]];
      assert EntryNames(entries) == {h.name} + EntryNames(entries[1..]) by {
        forall v | v in EntryNames(entries) ensures v in {h.name} + EntryNames(entries[1..]) {
          var i :| 0 <= i < |entries| && v == entries[i].name;
          assert i > 0 ==> entries[1..][i - 1] == entries[i];
        }
        assert forall i :: 0 <= i < |entries| - 1 ==> entries[1..][i] == entries[i + 1];
      }
      UpdateAgrees(e, f, h.name, h.vals[k], names + EntryNames(entries[1..]));
      SetRowAgrees(e1, f1, entries[1..], k, names);
    }
  }

  lemma {:induction false} SetRowKeeps(e: Env, entries: seq<Entry>, k: nat)
    requires Row(entries, k)
    ensures AgreeOff(e, SetRow(e, entries, k), EntryNames(entries))
    decreases |entries|
  {
    if entries != [] {
      SetRowKeeps(e[entries[0].name := entries[0].vals[k]], entries[1..], k);
      assert entries[0].name in EntryNames(entries);
      assert forall i :: 0 <= i < |entries| - 1 ==> entries[1..][i] == entries[i + 1];
      assert EntryNames(entries[1..]) <= EntryNames(entries);
    }
  }

  lemma AtRowAgrees(e: Env, f: Env, l: Level, k: nat, names: set<string>)
    requires ValidLevel(l) && k < l.size && AgreeOff(e, f, names + LevelNames(l))
    ensures AgreeOff(AtRow(e, l, k), AtRow(f, l, k), names)
  {
    if l.Sweep? {
      SetRowAgrees(e, f, l.entries, k, names);
    } else {
      UpdateAgrees(e, f, l.name, Num(Delay(l, k)), names);
    }
  }

  /** The sum does not depend on what the swept parameters held before. */
  lemma {:induction false} ExactAgrees(ls: seq<Level>, leaf: Env -> real, e: Env, f: Env)
    requires ValidLevels(ls) && AgreeOff(e, f, Names(ls))
    ensures Exact(ls, leaf, e) == Exact(ls, leaf, f)
    decreases |ls|, 1, 0
  {
    hide AgreeOff;
    if ls == [] {
      AgreeOnAll(e, f);
    } else {
      ExactRowsAgree(ls, leaf, e, f, 0);
    }
  }

  lemma AgreeOnAll(e: Env, f: Env)
    requires AgreeOff(e, f, {})
    ensures e == f
  {
    assert forall v :: v in e || v in f ==> Same(e, f, v);
  }

  lemma {:induction false} ExactRowsAgree(ls: seq<Level>, leaf: Env -> real, e: Env, f: Env, k: nat)
    requires ValidLevels(ls) && ls != [] && k <= ls[0].size && AgreeOff(e, f, Names(ls))
    ensures ExactRows(ls, leaf, e, k) == ExactRows(ls, leaf, f, k)
    decreases |ls|, 0, ls[0].size - k
  {
    hide AgreeOff, AtRow;
    if k < ls[0].size {
      assert Names(ls) == Names(ls[1..]) + LevelNames(ls[0]);
      AtRowAgrees(e, f, ls[0], k, Names(ls[1..]));
      ExactAgrees(ls[1..], leaf, AtRow(e, ls[0], k), AtRow(f, ls[0], k));
      ExactRowsAgree(ls, leaf, e, f, k + 1);
    }
  }

  // ----- arrays without an evolution delay ------------------------------------------------------------------

  predicate Sweeps(ls: seq<Level>) {
    forall i :: 0 <= i < |ls| ==> ls[i].Sweep?
  }

  lemma AgreeOffThen(e: Env, f: Env, g: Env, a: set<string>, b: set<string>, c: set<string>)
    requires AgreeOff(e, f, a) && AgreeOff(f, g, b) && a <= c && b <= c
    ensures AgreeOff(e, g, c) && AgreeOff(g, e, c)
  {
    forall v | v !in c ensures Same(e, g, v) && Same(g, e, v) {
      assert Same(e, f, v) && Same(f, g, v);
    }
  }

  /** The calls leave only the swept parameters changed. */
  lemma {:induction false} CalKeeps(ls: seq<Level>, leaf: Env -> real, env: Env)
    requires ValidLevels(ls)
    ensures AgreeOff(env, Cal(ls, leaf, env).env, Names(ls))
    decreases |ls|, 1, 0
  {
    hide AgreeOff;
    if ls == [] {
      AgreeSelf(env);
    } else if ls[0].Sweep? {
      RowsKeep(ls, leaf, env, 0);
    } else {
      var a := Cal(ls[1..], leaf, env);
      var e := a.env[ls[0].name := Num(Last(ls[0]))];
      CalKeeps(ls[1..], leaf, env);
      AgreeUpdate(a.env, ls[0].name, Num(Last(ls[0])));
      AgreeOffThen(env, a.env, e, Names(ls[1..]), {ls[0].name}, Names(ls));
      CalKeeps(ls[1..], leaf, e);
      AgreeOffThen(env, e, Cal(ls[1..], leaf, e).env, Names(ls), Names(ls[1..]), Names(ls));
    }
  }

  lemma AgreeSelf(e: Env)
    ensures AgreeOff(e, e, {})
  {
  }

  lemma AgreeUpdate(e: Env, v: string, x: Value)
    ensures AgreeOff(e, e[v := x], {v})
  {
  }

  lemma {:induction false} RowsKeep(ls: seq<Level>, leaf: Env -> real, env: Env, k: nat)
    requires ValidLevels(ls) && ls != [] && ls[0].Sweep? && k <= ls[0].size
    ensures AgreeOff(env, CalRows(ls, leaf, env, k).env, Names(ls))
    decreases |ls|, 0, ls[0].size - k
  {
    hide AgreeOff, SetRow;
    AgreeSelf(env);
    if k < ls[0].size {
      var e := SetRow(env, ls[0].entries, k);
      var a := Cal(ls[1..], leaf, e).env;
      SetRowKeeps(env, ls[0].entries, k);
      CalKeeps(ls[1..], leaf, e);
      AgreeOffThen(env, e, a, LevelNames(ls[0]), Names(ls[1..]), Names(ls));
      RowsKeep(ls, leaf, a, k + 1);
      AgreeOffThen(env, a, CalRows(ls, leaf, a, k + 1).env, Names(ls), Names(ls), Names(ls));
    } else {
      AgreeOffThen(env, env, env, {}, {}, Names(ls));
    }
  }

  /** With parenthesised and plain arrays only, the calls add up every combination. */
  lemma {:induction false} SweepsAreExact(ls: seq<Level>, leaf: Env -> real, env: Env)
    requires ValidLevels(ls) && Sweeps(ls)
    ensures Cal(ls, leaf, env).time == Exact(ls, leaf, env)
    decreases |ls|, 1, 0
  {
    if ls != [] {
      AgreeSelf(env);
      RowsAreExact(ls, leaf, env, env, 0);
    }
  }

  lemma {:induction false} RowsAreExact(ls: seq<Level>, leaf: Env -> real, env: Env, start: Env, k: nat)
    requires ValidLevels(ls) && Sweeps(ls) && ls != [] && k <= ls[0].size
    requires AgreeOff(env, start, Names(ls))
    ensures CalRows(ls, leaf, env, k).time == ExactRows(ls, leaf, start, k)
    decreases |ls|, 0, ls[0].size - k
  {
    hide AgreeOff, SetRow;
    if k < ls[0].size {
      var e, f := SetRow(env, ls[0].entries, k), SetRow(start, ls[0].entries, k);
      assert Names(ls) == Names(ls[1..]) + LevelNames(ls[0]);
      SetRowAgrees(env, start, ls[0].entries, k, Names(ls[1..]));
      SweepsAreExact(ls[1..], leaf, e);
      ExactAgrees(ls[1..], leaf, e, f);
      var a := Cal(ls[1..], leaf, e).env;
      SetRowKeeps(env, ls[0].entries, k);
      CalKeeps(ls[1..], leaf, e);
      AgreeOffThen(env, e, a, LevelNames(ls[0]), Names(ls[1..]), Names(ls));
      AgreeOffThen(a, env, start, Names(ls), Names(ls), Names(ls));
      RowsAreExact(ls, leaf, a, start, k + 1);
    }
  }

  // ----- the sum, without the order in which parameters are set ---------------------------------------------

  /** The last of the entries with a name gives its value ... */
  lemma {:induction false} RowAt(e: Env, entries: seq<Entry>, k: nat, i: nat)
    requires Row(entries, k) && i < |entries|
    requires forall j :: i < j < |entries| ==> entries[j].name != entries[i].name
    ensures entries[i].name in SetRow(e, entries, k) && SetRow(e, entries, k)[entries[i].name] == entries[i].vals[k]
    decreases |entries|
  {
    var g := e[entries[0].name := entries[0].vals[k]];
    if i > 0 { RowAt(g, entries[1..], k, i - 1); } else { RowElse(g, entries[1..], k, entries[0].name); }
  }

  /** ... and the other parameters stay. */
  lemma {:induction false} RowElse(e: Env, entries: seq<Entry>, k: nat, v: string)
    requires Row(entries, k) && forall i :: 0 <= i < |entries| ==> entries[i].name != v
    ensures Same(e, SetRow(e, entries, k), v)
    decreases |entries|
  {
    if entries != [] { RowElse(e[entries[0].name := entries[0].vals[k]], entries[1..], k, v); }
  }

  lemma RowHolds(e: Env, entries: seq<Entry>, k: nat)
    requires Row(entries, k)
    ensures forall i :: 0 <= i < |entries| && (forall j :: i < j < |entries| ==> entries[j].name != entries[i].name) ==>
              entries[i].name in SetRow(e, entries, k) && SetRow(e, entries, k)[entries[i].name] == entries[i].vals[k]
  {
    hide SetRow;
    forall i | 0 <= i < |entries| && (forall j :: i < j < |entries| ==> entries[j].name != entries[i].name)
      ensures entries[i].name in SetRow(e, entries, k) && SetRow(e, entries, k)[entries[i].name] == entries[i].vals[k]
    {
      RowAt(e, entries, k, i);
    }
  }

  lemma RowLeaves(e: Env, entries: seq<Entry>, k: nat)
    requires Row(entries, k)
    ensures forall v :: (forall i :: 0 <= i < |entries| ==> entries[i].name != v) ==>
              (v in SetRow(e, entries, k) <==> v in e) && (v in e ==> SetRow(e, entries, k)[v] == e[v])
  {
    hide SetRow;
    forall v | forall i :: 0 <= i < |entries| ==> entries[i].name != v
      ensures (v in SetRow(e, entries, k) <==> v in e) && (v in e ==> SetRow(e, entries, k)[v] == e[v])
    {
      RowElse(e, entries, k, v);
    }
  }

  /** The sum of f over all tuples that begin with t, component j less than sizes[j]. */
  function TupleSum(sizes: seq<nat>, t: seq<nat>, f: seq<nat> -> real): real
    requires |t| <= |sizes|
    decreases |sizes| - |t|, 1, 0
  {
    if |t| == |sizes| then f(t) else TupleSumFrom(sizes, t, 0, f)
  }

  function TupleSumFrom(sizes: seq<nat>, t: seq<nat>, k: nat, f: seq<nat> -> real): real
    requires |t| < |sizes| && k <= sizes[|t|]
    decreases |sizes| - |t|, 0, sizes[|t|] - k
  {
    if k == sizes[|t|] then 0.0 else TupleSum(sizes, t + [k], f) + TupleSumFrom(sizes, t, k + 1, f)
  }

  function Sizes(ls: seq<Level>): seq<nat> {
    seq(|ls|, j requires 0 <= j < |ls| => ls[j].size)
  }

  /** No parameter is in two places. */
  ghost predicate OncePerName(ls: seq<Level>) {
    forall j, i, k, m ::
      (&& 0 <= j < |ls| && 0 <= k < |ls| && ls[j].Sweep? && ls[k].Sweep?
       && 0 <= i < |ls[j].entries| && 0 <= m < |ls[k].entries| && ls[j].entries[i].name == ls[k].entries[m].name) ==>
        j == k && i == m
  }

  /** The levels that t has an index for hold the values with that index, and all else is as in env. */
  ghost predicate Combination(ls: seq<Level>, env: Env, t: seq<nat>, e: Env) {
    && |t| <= |ls| && Sweeps(ls) && ValidLevels(ls)
    && (forall j :: 0 <= j < |t| ==> t[j] < ls[j].size)
    && (forall j, i :: 0 <= j < |t| && 0 <= i < |ls[j].entries| ==>
          ls[j].entries[i].name in e && e[ls[j].entries[i].name] == ls[j].entries[i].vals[t[j]])
    && forall v :: (forall j, i :: 0 <= j < |t| && 0 <= i < |ls[j].entries| ==> ls[j].entries[i].name != v) ==>
         Same(env, e, v)
  }

  lemma NextCombination(ls: seq<Level>, env: Env, t: seq<nat>, e: Env, k: nat)
    requires Combination(ls, env, t, e) && OncePerName(ls) && |t| < |ls| && k < ls[|t|].size
    ensures Combination(ls, env, t + [k], AtRow(e, ls[|t|], k))
  {
    var n, l, g := |t|, ls[|t|], AtRow(e, ls[|t|], k);
    forall j, i | 0 <= j < n + 1 && 0 <= i < |ls[j].entries|
      ensures ls[j].entries[i].name in g && g[ls[j].entries[i].name] == ls[j].entries[i].vals[(t + [k])[j]]
    {
      NextValue(ls, env, t, e, k, j, i);
    }
    forall v | forall j, i :: 0 <= j < n + 1 && 0 <= i < |ls[j].entries| ==> ls[j].entries[i].name != v
      ensures Same(env, g, v)
    {
      hide SetRow, OncePerName;
      assert Same(env, e, v);
      assert forall m :: 0 <= m < |l.entries| ==> ls[n].entries[m].name != v;
      RowElse(e, l.entries, k, v);
    }
  }

  lemma NextValue(ls: seq<Level>, env: Env, t: seq<nat>, e: Env, k: nat, j: nat, i: nat)
    requires Combination(ls, env, t, e) && OncePerName(ls) && |t| < |ls| && k < ls[|t|].size
    requires j <= |t| && i < |ls[j].entries|
    ensures var g, x := AtRow(e, ls[|t|], k), ls[j].entries[i]; x.name in g && g[x.name] == x.vals[(t + [k])[j]]
  {
    hide SetRow;
    var l, x := ls[|t|], ls[j].entries[i];
    if j < |t| {
      assert x.name in e && e[x.name] == x.vals[t[j]];
      RowElse(e, l.entries, k, x.name);
      assert Same(e, AtRow(e, l, k), x.name);
    } else {
      RowAt(e, l.entries, k, i);
    }
  }

  /** With arrays only, and no parameter in two of them: whatever f is, if it is the time of a combination for
      the tuple of its indices, the total is the sum of f over all tuples. */
  lemma SweepsAreTuples(ls: seq<Level>, leaf: Env -> real, env: Env, f: seq<nat> -> real)
    requires ValidLevels(ls) && Sweeps(ls) && OncePerName(ls)
    requires forall t, e :: |t| == |ls| && Combination(ls, env, t, e) ==> f(t) == leaf(e)
    ensures Cal(ls, leaf, env).time == TupleSum(Sizes(ls), [], f)
  {
    SweepsAreExact(ls, leaf, env);
    assert ls[0..] == ls;
    ExactIsTuples(ls, leaf, env, [], env, f);
  }

  lemma {:induction false} ExactIsTuples(ls: seq<Level>, leaf: Env -> real, env: Env, t: seq<nat>, e: Env,
                                         f: seq<nat> -> real)
    requires OncePerName(ls) && Combination(ls, env, t, e)
    requires forall t, e :: |t| == |ls| && Combination(ls, env, t, e) ==> f(t) == leaf(e)
    ensures Exact(ls[|t|..], leaf, e) == TupleSum(Sizes(ls), t, f)
    decreases |ls| - |t|, 1, 0
  {
    assert |t| <= |ls|;
    hide Combination, OncePerName;
    if |t| < |ls| {
      RowsAreTuples(ls, leaf, env, t, e, 0, f);
    } else {
      assert ls[|t|..] == [];
    }
  }

  lemma {:induction false} RowsAreTuples(ls: seq<Level>, leaf: Env -> real, env: Env, t: seq<nat>, e: Env, k: nat,
                                         f: seq<nat> -> real)
    requires OncePerName(ls) && Combination(ls, env, t, e) && |t| < |ls| && k <= ls[|t|].size
    requires forall t, e :: |t| == |ls| && Combination(ls, env, t, e) ==> f(t) == leaf(e)
    ensures ExactRows(ls[|t|..], leaf, e, k) == TupleSumFrom(Sizes(ls), t, k, f)
    decreases |ls| - |t|, 0, ls[|t|].size - k
  {
    hide AtRow, OncePerName;
    assert ls[|t|..][1..] == ls[|t| + 1..];
    if k < ls[|t|].size {
      NextCombination(ls, env, t, e, k);
      hide Combination;
      ExactIsTuples(ls, leaf, env, t + [k], AtRow(e, ls[|t|], k), f);
      RowsAreTuples(ls, leaf, env, t, e, k + 1, f);
    }
  }

  lemma OneEntry(e: Env, x: Entry, k: nat)
    requires k < |x.vals|
    ensures SetRow(e, [x], k) == e[x.name := x.vals[k]]
  {
    assert [x][1..] == [] && SetRow(e[x.name := x.vals[k]], [], k) == e[x.name := x.vals[k]];
  }

  /** One array of three values: the scan is timed once with each. */
  lemma ThreeValues(name: string, x: Value, y: Value, z: Value, leaf: Env -> real, env: Env)
    ensures Cal([Sweep([Entry(name, [x, y, z])], 3)], leaf, env).time
            == leaf(env[name := x]) + leaf(env[name := y]) + leaf(env[name := z])
  {
    var entries := [Entry(name, [x, y, z])];
    var ls := [Sweep(entries, 3)];
    assert ls[1..] == [] && entries[1..] == [];
    SweepsAreExact(ls, leaf, env);
    OneEntry(env, entries[0], 0);
    OneEntry(env, entries[0], 1);
    OneEntry(env, entries[0], 2);
    hide SetRow;
    assert ExactRows(ls, leaf, env, 3) == 0.0;
    assert ExactRows(ls, leaf, env, 2) == leaf(env[name := z]) + 0.0;
    assert ExactRows(ls, leaf, env, 1) == leaf(env[name := y]) + ExactRows(ls, leaf, env, 2);
    assert ExactRows(ls, leaf, env, 0) == leaf(env[name := x]) + ExactRows(ls, leaf, env, 1);
  }

  // ----- the scans of one combination ---------------------------------------------------------------------------

  const MAX_SCANS := 16

  function ScanSum(scan: nat -> real, n: nat): real {
    if n == 0 then 0.0 else ScanSum(scan, n - 1) + scan(n - 1)
  }

  function FewerOf(nt: nat): nat {
    if nt > MAX_SCANS then MAX_SCANS else nt
  }

  /** At most 16 scans, and at least one when there are steady-state scans. */
  function Most(nt: nat, ss: nat): nat {
    if nt == 0 && ss > 0 then 1 else FewerOf(nt)
  }

  function Product(n: int, x: real): real {
    x * n as real
  }

  lemma ProductIs()
    ensures forall n: int, x: real :: Product(n, x) == x * n as real
  {
  }

  /** Scans are simulated while they ask to be run again; a steady-state scan takes as long as the first. */
  method SimulateScans(nt: nat, ss: nat, scan: nat -> real, again: nat -> bool)
      returns (t: real, fval: real, steady: real, nct: nat)
    ensures t == ScanSum(scan, nct) && nct <= Most(nt, ss) && (nct == 0 <==> nt == 0 && ss == 0)
    ensures fval == (if nct > 0 then scan(nct - 1) else 0.0) && (nct <= 1 ==> t == fval)
    ensures steady == Product(ss, scan(0))
    ensures forall k :: 0 <= k < nct - 1 ==> again(k)
    ensures nct == Most(nt, ss) || (nct > 0 && !again(nct - 1))
  {
    var ss2 := ss;
    nct, t, fval, steady := 0, 0.0, 0.0, 0.0;
    while nct < FewerOf(nt) || ss2 > 0
      invariant nct <= Most(nt, ss) && t == ScanSum(scan, nct) && fval == if nct > 0 then scan(nct - 1) else 0.0
      invariant ss2 == (if nct == 0 then ss else 0) && steady == if nct == 0 then 0.0 else Product(ss, scan(0))
      invariant forall k :: 0 <= k < nct ==> again(k)
      decreases Most(nt, ss) - nct
    {
      fval := scan(nct);
      t := t + fval;
      if nct == 0 {
        steady := Product(ss2, fval);
      }
      nct := nct + 1;
      ss2 := 0;
      if !again(nct - 1) {
        return;
      }
    }
  }

  /** The time is nt times the mean of the scans that were simulated.  Steady-state scans are added to
      it for every combination when ssNum is negative, and otherwise kept apart, once. */
  method LeafTime(nt: nat, ssNum: int, ssTime: real, scan: nat -> real, again: nat -> bool)
      returns (t: real, ssNum': int, ssTime': real, nct: nat)
    ensures var own := if ssNum < 0 then Product(-ssNum, scan(0)) else 0.0;
            && (nt == 0 ==> t == own)
            && (nt > 0 ==> 1 <= nct && Product(nct, t - own) == Product(nt, ScanSum(scan, nct)))
    ensures nct <= Most(nt, if ssNum < 0 then -ssNum else ssNum)
    ensures ssNum' == (if ssNum < 0 then ssNum else 0)
            && ssTime' == if ssNum < 0 then ssTime else ssTime + Product(ssNum, scan(0))
    ensures forall k :: 0 <= k < nct - 1 ==> again(k)
    ensures nct == Most(nt, if ssNum < 0 then -ssNum else ssNum) || (nct > 0 && !again(nct - 1))
    ensures var most := if nt > 16 then 16 else if nt == 0 && ssNum != 0 then 1 else nt;
            nct <= most && (nct == most || (nct > 0 && !again(nct - 1)))
    ensures var own := if ssNum < 0 then scan(0) * (-ssNum) as real else 0.0;
            if nt == 0 then t == own else (t - own) * nct as real == ScanSum(scan, nct) * nt as real
    ensures ssTime' == ssTime + if ssNum < 0 then 0.0 else scan(0) * ssNum as real
  {
    ProductIs();
    hide Product, ScanSum;
    var ss: nat := if ssNum < 0 then -ssNum else ssNum;
    ssNum', ssTime' := if ssNum < 0 then ssNum else 0, ssTime;
    var sum, fval, steady;
    sum, fval, steady, nct := SimulateScans(nt, ss, scan, again);
    MeanTimes(sum, if nct > 1 then sum / nct as real else fval, nct, nt);
    if nct > 1 {
      fval := sum / nct as real;
    }
    t := sum + Product(nt - nct, fval);
    if ssNum < 0 {
      t := t + steady;
    } else {
      ssTime' := ssTime' + steady;
    }
  }

  lemma MeanTimes(sum: real, mean: real, c: nat, n: nat)
    requires mean == if c > 1 then sum / c as real else mean
    requires c == 1 ==> mean == sum
    requires c == 0 ==> sum == 0.0 && mean == 0.0
    ensures c > 0 ==> Product(c, sum + Product(n - c, mean)) == Product(n, sum)
    ensures c == 0 || (c == 1 && n == 0) ==> sum + Product(n - c, mean) == 0.0
  {
    if c > 0 {
      assert mean * c as real == sum;
      assert mean * (n - c) as real == mean * n as real - sum;
      assert (mean * n as real) * c as real == sum * n as real;
    }
  }
}
