/** The shortcut that cal_dps_timer takes for the evolution delays d2, d3 and d4, below and above
    other levels: by how much it is off, and when it is exact. */
module DpsEvolution {
  import opened DpsTimer

  // ----- the shortcut for one delay -------------------------------------------------------------------

  /** The time of all that lies under the delay at the head of ls, for one value of the delay. */
  function Under(ls: seq<Level>, leaf: Env -> real, e: Env, x: real): real
    requires ValidLevels(ls) && ls != [] && ls[0].Ni?
  {
    Exact(ls[1..], leaf, e[ls[0].name := Num(x)])
  }

  /** How much too long n/2 times first and last is: nothing, when the times lie on a straight line. */
  function Bend(ls: seq<Level>, leaf: Env -> real, e: Env): real
    requires ValidLevels(ls) && ls != [] && ls[0].Ni?
  {
    Times(ls[0].size, Under(ls, leaf, e, ls[0].first) + Under(ls, leaf, e, Last(ls[0]))) / 2.0 - Exact(ls, leaf, e)
  }

  /** How much longer the last value takes than the first. */
  function Rise(ls: seq<Level>, leaf: Env -> real, e: Env): real
    requires ValidLevels(ls) && ls != [] && ls[0].Ni?
  {
    Under(ls, leaf, e, Last(ls[0])) - Under(ls, leaf, e, ls[0].first)
  }

  /** How much too long the shortcut is when the delay is entered at v and not at its first value. */
  function Excess(ls: seq<Level>, leaf: Env -> real, e: Env, v: real): real
    requires ValidLevels(ls) && ls != [] && ls[0].Ni?
  {
    Times(ls[0].size, Under(ls, leaf, e, v) - Under(ls, leaf, e, ls[0].first)) / 2.0
  }

  // ----- evenly stepping times ----------------------------------------------------------------------------

  /** From each value of the delay to the next, the time grows by the same. */
  ghost predicate Even(ls: seq<Level>, leaf: Env -> real, e: Env)
    requires ValidLevels(ls) && ls != [] && ls[0].Ni?
  {
    forall k: nat :: k + 1 < ls[0].size ==> EvenAt(ls, leaf, e, k)
  }

  predicate EvenAt(ls: seq<Level>, leaf: Env -> real, e: Env, k: nat)
    requires ValidLevels(ls) && ls != [] && ls[0].Ni?
  {
    Under(ls, leaf, e, Delay(ls[0], k + 1)) - Under(ls, leaf, e, Delay(ls[0], k))
    == Under(ls, leaf, e, Delay(ls[0], 1)) - Under(ls, leaf, e, Delay(ls[0], 0))
  }

  function Triangle(n: nat): nat {
    if n == 0 then 0 else Triangle(n - 1) + n - 1
  }

  lemma {:induction false} TriangleHalf(n: nat)
    ensures 2 * Triangle(n) == n * (n - 1)
  {
    if n > 0 { TriangleHalf(n - 1); }
  }

  function Step(ls: seq<Level>, leaf: Env -> real, e: Env): real
    requires ValidLevels(ls) && ls != [] && ls[0].Ni?
  {
    Under(ls, leaf, e, Delay(ls[0], 1)) - Under(ls, leaf, e, Delay(ls[0], 0))
  }

  lemma TimesNext(k: nat, c: real)
    ensures Times(k + 1, c) == Times(k, c) + c && Times(0, c) == 0.0
  {
    assert (k + 1) as real == k as real + 1.0;
  }

  /** The time at value k. */
  lemma {:induction false} EvenValue(ls: seq<Level>, leaf: Env -> real, e: Env, k: nat)
    requires ValidLevels(ls) && ls != [] && ls[0].Ni? && Even(ls, leaf, e) && k < ls[0].size
    ensures Under(ls, leaf, e, Delay(ls[0], k))
            == Under(ls, leaf, e, Delay(ls[0], 0)) + Times(k, Step(ls, leaf, e))
  {
    hide Under, Times, Delay;
    if k == 0 {
      TimesNext(0, Step(ls, leaf, e));
    } else {
      EvenValue(ls, leaf, e, k - 1);
      assert EvenAt(ls, leaf, e, k - 1);
      TimesNext(k - 1, Step(ls, leaf, e));
    }
  }

  /** What the values k .. size - 1 add up to. */
  lemma {:induction false} EvenSum(ls: seq<Level>, leaf: Env -> real, e: Env, k: nat)
    requires ValidLevels(ls) && ls != [] && ls[0].Ni? && Even(ls, leaf, e) && k <= ls[0].size
    ensures var n, f, c := ls[0].size, Under(ls, leaf, e, Delay(ls[0], 0)), Step(ls, leaf, e);
            ExactRows(ls, leaf, e, k) == Times(n - k, f) + Times(Triangle(n), c) - Times(Triangle(k), c)
    decreases ls[0].size - k
  {
    hide Times, Delay, Step, Even, Exact;
    var n, f, c := ls[0].size, Under(ls, leaf, e, Delay(ls[0], 0)), Step(ls, leaf, e);
    TimesNext(0, f);
    if k < n {
      EvenSum(ls, leaf, e, k + 1);
      EvenValue(ls, leaf, e, k);
      assert AtRow(e, ls[0], k) == e[ls[0].name := Num(Delay(ls[0], k))];
      TimesNext(n - k - 1, f);
      TimesAdds(Triangle(k), k, c);
    }
  }

  lemma TimesAdds(a: nat, b: nat, c: real)
    ensures Times(a + b, c) == Times(a, c) + Times(b, c)
  {
    assert (a + b) as real == a as real + b as real;
  }

  lemma HalfReals(n: nat, f: real, c: real)
    requires n >= 1
    ensures Times(n, f + (f + Times(n - 1, c))) / 2.0 == Times(n, f) + Times(Triangle(n), c)
  {
    TriangleHalf(n);
    var r, t, m := n as real, Triangle(n) as real, (n - 1) as real;
    assert 2.0 * t == r * m;
    assert r * (f + (f + m * c)) == 2.0 * (r * f) + r * (m * c);
    assert r * (m * c) == (r * m) * c;
  }

  lemma Ends(l: Level)
    requires l.Ni? && l.size > 0
    ensures Delay(l, 0) == l.first && Delay(l, l.size - 1) == Last(l)
  {
    assert (l.size - 1) as real == l.size as real - 1.0;
  }

  /** So for an even time n/2 times first and last is the sum. */
  lemma EvenIsStraight(ls: seq<Level>, leaf: Env -> real, e: Env)
    requires ValidLevels(ls) && ls != [] && ls[0].Ni? && Even(ls, leaf, e)
    ensures Bend(ls, leaf, e) == 0.0
  {
    hide Times, Delay, Step, Even, Under, ExactRows, Last;
    var n, f, c := ls[0].size, Under(ls, leaf, e, Delay(ls[0], 0)), Step(ls, leaf, e);
    ExactOfRows(ls, leaf, e);
    EvenSum(ls, leaf, e, 0);
    TimesNext(0, f);
    TimesNext(0, c);
    if n == 0 {
      TimesNext(0, Under(ls, leaf, e, ls[0].first) + Under(ls, leaf, e, Last(ls[0])));
    } else {
      Ends(ls[0]);
      EvenValue(ls, leaf, e, n - 1);
      HalfReals(n, f, c);
    }
  }

  // ----- levels in any order --------------------------------------------------------------------------

  function Delays(ls: seq<Level>): set<string> {
    if ls == [] then {} else (if ls[0].Ni? then {ls[0].name} else {}) + Delays(ls[1..])
  }

  /** No level sets a delay that another one steps. */
  predicate Apart(ls: seq<Level>) {
    ls == [] || (&& LevelNames(ls[0]) !! Delays(ls[1..])
                 && (ls[0].Ni? ==> ls[0].name !in Names(ls[1..]))
                 && Apart(ls[1..]))
  }

  predicate IsNum(e: Env, name: string) {
    name in e && e[name].Num?
  }

  predicate Begun(ls: seq<Level>, e: Env) {
    forall name :: name in Delays(ls) ==> IsNum(e, name)
  }

  predicate Holds(e: Env, name: string, v: real) {
    name in e && e[name] == Num(v)
  }

  /** Every delay is at its last value, as it is once it has been entered; those under an array
      without values never are. */
  predicate Spent(ls: seq<Level>, e: Env) {
    ls == [] || (if ls[0].Ni? then Holds(e, ls[0].name, Last(ls[0])) && Spent(ls[1..], e)
                 else ls[0].size == 0 || Spent(ls[1..], e))
  }

  /** The value that a delay is entered with. */
  function Start(l: Level, e: Env, again: bool): real
    requires l.Ni?
  {
    if again then Last(l) else if IsNum(e, l.name) then e[l.name].x else 0.0
  }

  /** In every call that is made, n/2 times first and last is the sum over the delay's values. */
  ghost predicate Straight(ls: seq<Level>, leaf: Env -> real, e: Env, again: bool)
    requires ValidLevels(ls)
    decreases |ls|
  {
    ls == [] ||
    (if ls[0].Sweep? then
       forall k: nat :: k < ls[0].size ==> Straight(ls[1..], leaf, AtRow(e, ls[0], k), again || k > 0)
     else
       ls[0].size == 0 ||
       (&& Bend(ls, leaf, e) == 0.0
        && Straight(ls[1..], leaf, e[ls[0].name := Num(Start(ls[0], e, again))], again)
        && Straight(ls[1..], leaf, e[ls[0].name := Num(Last(ls[0]))], true)))
  }

  /** By how much the total is off.  Only the first call under a level finds the delays below as they
      were; every later one finds them at their last values, which `again` says. */
  function Off(ls: seq<Level>, leaf: Env -> real, e: Env, again: bool): real
    requires ValidLevels(ls)
    decreases |ls|, 1, 0
  {
    if ls == [] then 0.0
    else if ls[0].Sweep? then OffRows(ls, leaf, e, 0, again)
    else
      var l, rest, v := ls[0], ls[1..], Start(ls[0], e, again);
      Bend(ls, leaf, e) + Excess(ls, leaf, e, v)
      + Times(l.size, Off(rest, leaf, e[l.name := Num(v)], again)
                      + Off(rest, leaf, e[l.name := Num(Last(l))], true)) / 2.0
  }

  function OffRows(ls: seq<Level>, leaf: Env -> real, e: Env, k: nat, again: bool): real
    requires ValidLevels(ls) && ls != [] && k <= ls[0].size
    decreases |ls|, 0, ls[0].size - k
  {
    if k == ls[0].size then 0.0
    else Off(ls[1..], leaf, AtRow(e, ls[0], k), again || k > 0) + OffRows(ls, leaf, e, k + 1, again)
  }

  /** The environment of a call, and the one it stands for, in which the outer values are the same. */
  ghost predicate Entered(ls: seq<Level>, env: Env, e: Env, again: bool) {
    && AgreeOff(env, e, Names(ls))
    && if again then Spent(ls, env) else env == e && Begun(ls, e)
  }

  lemma {:induction false} SpentSame(ls: seq<Level>, e: Env, f: Env, names: set<string>)
    requires Spent(ls, e) && AgreeOff(e, f, names) && names !! Delays(ls)
    ensures Spent(ls, f)
  {
    if ls != [] {
      if ls[0].Ni? {
        assert ls[0].name in Delays(ls) && Same(e, f, ls[0].name);
      }
      if ls[0].Ni? || ls[0].size > 0 {
        SpentSame(ls[1..], e, f, names);
      }
    }
  }

  lemma BegunSame(ls: seq<Level>, e: Env, f: Env, names: set<string>)
    requires Begun(ls, e) && AgreeOff(e, f, names) && names !! Delays(ls)
    ensures Begun(ls, f)
  {
    forall name | name in Delays(ls) ensures IsNum(f, name) {
      assert Same(e, f, name);
    }
  }

  lemma AgreeBoth(e: Env, f: Env, v: string, x: Value, names: set<string>)
    requires AgreeOff(e, f, names + {v})
    ensures AgreeOff(e[v := x], f[v := x], names)
  {
    UpdateAgrees(e, f, v, x, names);
  }

  // ----- row by row under a swept array -----------------------------------------------------------------

  lemma RowEntered(ls: seq<Level>, env: Env, e: Env, k: nat, again: bool)
    requires ValidLevels(ls) && ls != [] && ls[0].Sweep? && k < ls[0].size && Apart(ls) && Entered(ls, env, e, again)
    ensures Entered(ls[1..], SetRow(env, ls[0].entries, k), AtRow(e, ls[0], k), again)
  {
    hide AgreeOff, SetRow;
    var entries, rest := ls[0].entries, ls[1..];
    assert Names(ls) == Names(rest) + EntryNames(entries);
    SetRowAgrees(env, e, entries, k, Names(rest));
    SetRowKeeps(env, entries, k);
    if again {
      SpentSame(rest, env, SetRow(env, entries, k), EntryNames(entries));
    } else {
      BegunSame(rest, env, SetRow(env, entries, k), EntryNames(entries));
    }
  }

  /** The next row finds the delays spent. */
  lemma NextEntered(ls: seq<Level>, leaf: Env -> real, env: Env, e: Env, k: nat, again: bool)
    requires ValidLevels(ls) && ls != [] && ls[0].Sweep? && k < ls[0].size && Entered(ls, env, e, again)
    requires Spent(ls[1..], Cal(ls[1..], leaf, SetRow(env, ls[0].entries, k)).env)
    ensures Entered(ls, Cal(ls[1..], leaf, SetRow(env, ls[0].entries, k)).env, e, true)
  {
    hide AgreeOff, SetRow, Cal;
    var e1 := SetRow(env, ls[0].entries, k);
    var c := Cal(ls[1..], leaf, e1).env;
    SetRowKeeps(env, ls[0].entries, k);
    CalKeeps(ls[1..], leaf, e1);
    AgreeOffThen(env, e1, c, LevelNames(ls[0]), Names(ls[1..]), Names(ls));
    AgreeOffThen(c, env, e, Names(ls), Names(ls), Names(ls));
  }

  lemma {:induction false} RowsAreOff(ls: seq<Level>, leaf: Env -> real, env: Env, e: Env, k: nat, again: bool)
    requires ValidLevels(ls) && ls != [] && ls[0].Sweep? && k <= ls[0].size && Apart(ls)
    requires Entered(ls, env, e, again || k > 0)
    ensures CalRows(ls, leaf, env, k).time == ExactRows(ls, leaf, e, k) + OffRows(ls, leaf, e, k, again)
    ensures Spent(ls, CalRows(ls, leaf, env, k).env)
    decreases |ls|, 0, ls[0].size - k
  {
    hide AgreeOff, SetRow, Exact, Entered, Off, Cal;
    if k < ls[0].size {
      var e1 := SetRow(env, ls[0].entries, k);
      RowEntered(ls, env, e, k, again || k > 0);
      TotalIsOff(ls[1..], leaf, e1, AtRow(e, ls[0], k), again || k > 0);
      NextEntered(ls, leaf, env, e, k, again || k > 0);
      RowsAreOff(ls, leaf, Cal(ls[1..], leaf, e1).env, e, k + 1, again);
    } else {
      SpentOfNone(ls, env, e, again || k > 0);
    }
  }

  lemma SpentOfNone(ls: seq<Level>, env: Env, e: Env, again: bool)
    requires ls != [] && ls[0].Sweep? && Entered(ls, env, e, again) && (again || ls[0].size == 0)
    ensures Spent(ls, env)
  {
  }

  // ----- the two calls under a delay ----------------------------------------------------------------------

  lemma FirstEntered(ls: seq<Level>, env: Env, e: Env, again: bool)
    requires ls != [] && ls[0].Ni? && Apart(ls) && Entered(ls, env, e, again)
    ensures Entered(ls[1..], env, e[ls[0].name := Num(Start(ls[0], e, again))], again)
  {
    hide AgreeOff;
    var l, rest, v := ls[0], ls[1..], Num(Start(ls[0], e, again));
    assert Names(ls) == Names(rest) + {l.name};
    AgreeBoth(env, e, l.name, v, Names(rest));
    if again {
      assert env[l.name := v] == env;
    } else {
      assert l.name in Delays(ls);
      assert env[l.name := v] == env;
    }
  }

  lemma LastEntered(ls: seq<Level>, leaf: Env -> real, env: Env, e: Env, again: bool)
    requires ValidLevels(ls) && ls != [] && ls[0].Ni? && Apart(ls) && Entered(ls, env, e, again)
    requires Spent(ls[1..], Cal(ls[1..], leaf, env).env)
    ensures Entered(ls[1..], Cal(ls[1..], leaf, env).env[ls[0].name := Num(Last(ls[0]))],
                    e[ls[0].name := Num(Last(ls[0]))], true)
  {
    hide AgreeOff, Cal;
    var l, rest, c := ls[0], ls[1..], Cal(ls[1..], leaf, env).env;
    assert Names(ls) == Names(rest) + {l.name};
    CalKeeps(rest, leaf, env);
    AgreeOffThen(env, c, c, Names(rest), Names(rest),
                 Names(ls)) by { AgreeSelf(c); AgreeMoreOff(c, c, {}, Names(rest)); }
    AgreeOffThen(c, env, e, Names(ls), Names(ls), Names(ls));
    AgreeBoth(c, e, l.name, Num(Last(l)), Names(rest));
    AgreeUpdate(c, l.name, Num(Last(l)));
    SpentSame(rest, c, c[l.name := Num(Last(l))], {l.name});
  }

  lemma AgreeMoreOff(e: Env, f: Env, a: set<string>, b: set<string>)
    requires AgreeOff(e, f, a) && a <= b
    ensures AgreeOff(e, f, b)
  {
  }

  lemma SpentAfter(ls: seq<Level>, leaf: Env -> real, f: Env)
    requires ValidLevels(ls) && ls != [] && ls[0].Ni? && Apart(ls)
    requires Holds(f, ls[0].name, Last(ls[0])) && Spent(ls[1..], Cal(ls[1..], leaf, f).env)
    ensures Spent(ls, Cal(ls[1..], leaf, f).env)
  {
    CalKeeps(ls[1..], leaf, f);
    assert Same(f, Cal(ls[1..], leaf, f).env, ls[0].name);
  }

  lemma Halves(n: nat, p: real, q: real, r: real, s: real)
    ensures Times(n, p + q + (r + s)) / 2.0 == Times(n, p + r) / 2.0 + Times(n, q + s) / 2.0
  {
    assert n as real * (p + q + (r + s)) == n as real * (p + r) + n as real * (q + s);
  }

  lemma {:induction false} DelayIsOff(ls: seq<Level>, leaf: Env -> real, env: Env, e: Env, again: bool)
    requires ValidLevels(ls) && ls != [] && ls[0].Ni? && Apart(ls) && Entered(ls, env, e, again)
    ensures Cal(ls, leaf, env).time == Exact(ls, leaf, e) + Off(ls, leaf, e, again)
    ensures Spent(ls, Cal(ls, leaf, env).env)
    decreases |ls|, 0, 0
  {
    var l, rest := ls[0], ls[1..];
    var v, last := Num(Start(l, e, again)), Num(Last(l));
    var f := Cal(rest, leaf, env).env[l.name := last];
    hide AgreeOff, Exact, Entered, Excess, Bend, Times, Last, Start;
    FirstEntered(ls, env, e, again);
    TotalIsOff(rest, leaf, env, e[l.name := v], again);
    LastEntered(ls, leaf, env, e, again);
    TotalIsOff(rest, leaf, f, e[l.name := last], true);
    SpentAfter(ls, leaf, f);
    DelaySum(ls, leaf, e, v.x);
    Halves(l.size, Exact(rest, leaf, e[l.name := v]), Off(rest, leaf, e[l.name := v], again),
           Exact(rest, leaf, e[l.name := last]), Off(rest, leaf, e[l.name := last], true));
  }

  /** What the code makes of the two calls, if the calls themselves were right. */
  lemma DelaySum(ls: seq<Level>, leaf: Env -> real, e: Env, v: real)
    requires ValidLevels(ls) && ls != [] && ls[0].Ni?
    ensures Times(ls[0].size, Exact(ls[1..], leaf, e[ls[0].name := Num(v)])
                              + Exact(ls[1..], leaf, e[ls[0].name := Num(Last(ls[0]))])) / 2.0
            == Exact(ls, leaf, e) + (Bend(ls, leaf, e) + Excess(ls, leaf, e, v))
  {
    hide Exact, Last;
    var n, f := ls[0].size as real, Under(ls, leaf, e, ls[0].first);
    var g, h := Under(ls, leaf, e, v), Under(ls, leaf, e, Last(ls[0]));
    assert n * (g + h) == n * (f + h) + n * (g - f);
  }

  lemma ExactOfRows(ls: seq<Level>, leaf: Env -> real, env: Env)
    requires ValidLevels(ls) && ls != []
    ensures Exact(ls, leaf, env) == ExactRows(ls, leaf, env, 0)
  {
  }

  /** For any nest of arrays and delays: the total is the sum over every combination, and Off. */
  lemma {:induction false} TotalIsOff(ls: seq<Level>, leaf: Env -> real, env: Env, e: Env, again: bool)
    requires ValidLevels(ls) && Apart(ls) && Entered(ls, env, e, again)
    ensures Cal(ls, leaf, env).time == Exact(ls, leaf, e) + Off(ls, leaf, e, again)
    ensures Spent(ls, Cal(ls, leaf, env).env)
    decreases |ls|, 1, 0
  {
    if ls == [] {
      AgreeOnAll(env, e);
    } else if ls[0].Ni? {
      DelayIsOff(ls, leaf, env, e, again);
    } else {
      RowsAreOff(ls, leaf, env, e, 0, again);
    }
  }

  /** So the estimate is off by Off, whatever the times are. */
  lemma EstimateIsOff(ls: seq<Level>, leaf: Env -> real, env: Env)
    requires ValidLevels(ls) && Apart(ls) && Begun(ls, env)
    ensures Cal(ls, leaf, env).time == Exact(ls, leaf, env) + Off(ls, leaf, env, false)
  {
    hide Cal, Exact, Off;
    AgreeSelf(env);
    AgreeMoreOff(env, env, {}, Names(ls));
    TotalIsOff(ls, leaf, env, env, false);
  }

  // ----- when the excess is nothing -----------------------------------------------------------------------

  lemma NonZero(x: real, y: real)
    requires x != 0.0 && y != 0.0
    ensures x * y != 0.0
  {
  }

  lemma HalfZero(n: nat, x: real)
    ensures Times(n, x) / 2.0 == 0.0 <==> n == 0 || x == 0.0
  {
    if n > 0 && x != 0.0 { NonZero(n as real, x); }
  }

  /** A delay whose last value, where it has one, is its first. */
  predicate Still(l: Level)
    requires l.Ni?
  {
    l.size <= 1 || l.step == 0.0
  }

  lemma StillAtLast(l: Level)
    requires l.Ni? && l.size > 0
    ensures Last(l) == l.first <==> Still(l)
  {
    if l.size == 1 {
      assert l.size as real - 1.0 == 0.0;
    } else if l.step != 0.0 {
      NonZero(l.size as real - 1.0, l.step);
    }
  }

  lemma ExcessZero(ls: seq<Level>, leaf: Env -> real, e: Env, v: real)
    requires ValidLevels(ls) && ls != [] && ls[0].Ni?
    ensures Excess(ls, leaf, e, v) == 0.0 <==>
              ls[0].size == 0 || Under(ls, leaf, e, v) == Under(ls, leaf, e, ls[0].first)
    ensures Excess(ls, leaf, e, ls[0].first) == 0.0
    ensures Excess(ls, leaf, e, Last(ls[0])) == Times(ls[0].size, Rise(ls, leaf, e)) / 2.0
  {
    hide Under, Times, Last;
    HalfZero(ls[0].size, Under(ls, leaf, e, v) - Under(ls, leaf, e, ls[0].first));
    HalfZero(ls[0].size, 0.0);
  }

  /** A delay that does not step does not change the time, and one without values takes none. */
  lemma NoRise(ls: seq<Level>, leaf: Env -> real, e: Env)
    requires ValidLevels(ls) && ls != [] && ls[0].Ni?
    ensures ls[0].size > 0 && Still(ls[0]) ==> Rise(ls, leaf, e) == 0.0
    ensures ls[0].size == 0 ==> Bend(ls, leaf, e) == 0.0
  {
    hide Under, Last;
    if ls[0].size > 0 { StillAtLast(ls[0]); }
    ExactOfRows(ls, leaf, e);
  }

  // ----- an innermost delay ---------------------------------------------------------------------------------

  lemma {:induction false} SweepsAreOff(ls: seq<Level>, leaf: Env -> real, e: Env, again: bool)
    requires ValidLevels(ls) && Sweeps(ls)
    ensures Delays(ls) == {} && Apart(ls) && Straight(ls, leaf, e, again) && Off(ls, leaf, e, again) == 0.0
    decreases |ls|, 1, 0
  {
    hide LevelNames;
    if ls != [] {
      SweepsAreOff(ls[1..], leaf, e, again);
      forall k: nat | k < ls[0].size ensures Straight(ls[1..], leaf, AtRow(e, ls[0], k), again || k > 0) {
        SweepsAreOff(ls[1..], leaf, AtRow(e, ls[0], k), again || k > 0);
      }
      SweepRowsAreOff(ls, leaf, e, 0, again);
    }
  }

  lemma {:induction false} SweepRowsAreOff(ls: seq<Level>, leaf: Env -> real, e: Env, k: nat, again: bool)
    requires ValidLevels(ls) && Sweeps(ls) && ls != [] && k <= ls[0].size
    ensures OffRows(ls, leaf, e, k, again) == 0.0
    decreases |ls|, 0, ls[0].size - k
  {
    hide Off;
    if k < ls[0].size {
      SweepsAreOff(ls[1..], leaf, AtRow(e, ls[0], k), again || k > 0);
      SweepRowsAreOff(ls, leaf, e, k + 1, again);
    }
  }

  /** An innermost delay: only swept arrays below it, none of them the delay itself. */
  predicate NiLevels(ls: seq<Level>) {
    && ls != [] && ls[0].Ni? && ValidLevels(ls) && Sweeps(ls[1..]) && ls[0].name !in Names(ls[1..])
  }

  lemma NiIsOff(ls: seq<Level>, leaf: Env -> real, e: Env, again: bool)
    requires NiLevels(ls)
    ensures Apart(ls) && Delays(ls) == {ls[0].name}
    ensures Straight(ls, leaf, e, again) <==> Bend(ls, leaf, e) == 0.0
    ensures Off(ls, leaf, e, again) == Bend(ls, leaf, e) + Excess(ls, leaf, e, Start(ls[0], e, again))
  {
    hide Excess, Bend;
    var l, v := ls[0], Num(Start(ls[0], e, again));
    SweepsAreOff(ls[1..], leaf, e[l.name := v], again);
    SweepsAreOff(ls[1..], leaf, e[l.name := Num(Last(l))], true);
    NoRise(ls, leaf, e);
    assert Times(l.size, 0.0) == 0.0;
  }

  /** Entered at whatever value: the shortcut is exact just when the time is the same at that value as at
      the first. */
  lemma NiExactlyWhen(ls: seq<Level>, leaf: Env -> real, env: Env)
    requires NiLevels(ls) && IsNum(env, ls[0].name) && Bend(ls, leaf, env) == 0.0
    ensures Cal(ls, leaf, env).time == Exact(ls, leaf, env) <==>
              ls[0].size == 0 || Under(ls, leaf, env, env[ls[0].name].x) == Under(ls, leaf, env, ls[0].first)
  {
    hide Cal, Exact, Under, Excess, Bend, Off, Straight;
    NiIsOff(ls, leaf, env, false);
    EstimateIsOff(ls, leaf, env);
    ExcessZero(ls, leaf, env, env[ls[0].name].x);
  }

  /** What the time gains for each second of the delay. */
  function Slope(ls: seq<Level>, leaf: Env -> real, e: Env): real
    requires ValidLevels(ls) && ls != [] && ls[0].Ni?
  {
    Under(ls, leaf, e, 1.0) - Under(ls, leaf, e, 0.0)
  }

  /** For no negative value of the delay, the time is a straight line in it. */
  ghost predicate Affine(ls: seq<Level>, leaf: Env -> real, e: Env)
    requires ValidLevels(ls) && ls != [] && ls[0].Ni?
  {
    forall x :: x >= 0.0 ==> Under(ls, leaf, e, x) == Under(ls, leaf, e, 0.0) + Slope(ls, leaf, e) * x
  }

  /** A delay that is never negative. */
  predicate Forward(l: Level)
    requires l.Ni?
  {
    l.first >= 0.0 && (l.size > 0 ==> Last(l) >= 0.0)
  }

  lemma ForwardDelay(l: Level, k: nat)
    requires l.Ni? && Forward(l) && k < l.size
    ensures Delay(l, k) >= 0.0
  {
    var n, m := (l.size - 1) as real, k as real;
    assert l.size as real - 1.0 == n && Last(l) == l.first + n * l.step;
    if l.step < 0.0 {
      assert (n - m) * l.step <= 0.0;
      assert n * l.step == m * l.step + (n - m) * l.step;
    } else {
      assert m * l.step >= 0.0;
    }
  }

  lemma DelayNext(l: Level, k: nat, b: real)
    requires l.Ni?
    ensures b * Delay(l, k + 1) - b * Delay(l, k) == b * l.step
  {
    assert Delay(l, k + 1) == Delay(l, k) + l.step by { TimesNext(k, l.step); }
    assert b * (Delay(l, k) + l.step) == b * Delay(l, k) + b * l.step;
  }

  lemma AffineIsEven(ls: seq<Level>, leaf: Env -> real, e: Env)
    requires ValidLevels(ls) && ls != [] && ls[0].Ni? && Affine(ls, leaf, e) && Forward(ls[0])
    ensures Even(ls, leaf, e)
  {
    hide Under, Delay, Last, Slope, Forward;
    var b := Slope(ls, leaf, e);
    forall k: nat | k + 1 < ls[0].size ensures EvenAt(ls, leaf, e, k) {
      ForwardDelay(ls[0], k);
      ForwardDelay(ls[0], k + 1);
      ForwardDelay(ls[0], 0);
      ForwardDelay(ls[0], 1);
      DelayNext(ls[0], k, b);
      DelayNext(ls[0], 0, b);
    }
  }

  /** So with a straight line: when the delay holds its first value on entry, or does not matter. */
  lemma NiSlopeWhen(ls: seq<Level>, leaf: Env -> real, env: Env)
    requires NiLevels(ls) && Affine(ls, leaf, env) && Forward(ls[0])
    requires IsNum(env, ls[0].name) && env[ls[0].name].x >= 0.0
    ensures Cal(ls, leaf, env).time == Exact(ls, leaf, env) <==>
              ls[0].size == 0 || Slope(ls, leaf, env) == 0.0 || env[ls[0].name].x == ls[0].first
  {
    hide Cal, Exact, Under, Bend, Slope, Last;
    var b, v, f := Slope(ls, leaf, env), env[ls[0].name].x, ls[0].first;
    AffineIsEven(ls, leaf, env);
    EvenIsStraight(ls, leaf, env);
    NiExactlyWhen(ls, leaf, env);
    assert b * v - b * f == b * (v - f);
    if b != 0.0 && v != f { NonZero(b, v - f); }
  }

  // ----- one delay under another ----------------------------------------------------------------------------

  /** A 3D experiment: a delay over an innermost one. */
  predicate TwoDelays(ls: seq<Level>) {
    && |ls| >= 2 && ls[0].Ni? && ValidLevels(ls) && NiLevels(ls[1..])
    && ls[0].name !in Names(ls[1..])
  }

  /** With both delays at their first values to begin with, the shortcut for the inner one starts from
      its last value under the last value of the outer one. */
  lemma TwoDelaysOff(ls: seq<Level>, leaf: Env -> real, env: Env)
    requires TwoDelays(ls) && Straight(ls, leaf, env, false)
    requires Holds(env, ls[0].name, ls[0].first) && Holds(env, ls[1].name, ls[1].first)
    ensures var rise := Rise(ls[1..], leaf, env[ls[0].name := Num(Last(ls[0]))]);
            Cal(ls, leaf, env).time
            == Exact(ls, leaf, env) + Times(ls[0].size, Times(ls[1].size, rise) / 2.0) / 2.0
  {
    hide Cal, Exact, Under, Bend, Excess, Last, Rise;
    var o, i, rest := ls[0], ls[1], ls[1..];
    var e := env[o.name := Num(Last(o))];
    assert rest[0] == i && env[o.name := Num(o.first)] == env;
    NiIsOff(rest, leaf, env, false);
    NiIsOff(rest, leaf, e, true);
    assert Names(ls) == {o.name} + Names(rest) && Delays(ls) == {o.name} + Delays(rest);
    assert i.name in Names(rest);
    assert Begun(ls, env);
    EstimateIsOff(ls, leaf, env);
    ExcessZero(ls, leaf, env, o.first);
    ExcessZero(rest, leaf, env, i.first);
    ExcessZero(rest, leaf, e, Last(i));
    NoRise(ls, leaf, env);
    hide Straight, Times;
    HalfZero(o.size, Off(rest, leaf, env, false) + Off(rest, leaf, e, true));
    HalfZero(o.size, Times(i.size, Rise(rest, leaf, e)) / 2.0);
  }

  /** So a 3D estimate is exact just when the inner delay does not step or does not matter there. */
  lemma TwoDelaysExactlyWhen(ls: seq<Level>, leaf: Env -> real, env: Env)
    requires TwoDelays(ls) && Straight(ls, leaf, env, false)
    requires Holds(env, ls[0].name, ls[0].first) && Holds(env, ls[1].name, ls[1].first)
    ensures Cal(ls, leaf, env).time == Exact(ls, leaf, env) <==>
              ls[0].size == 0 || Still(ls[1])
              || Rise(ls[1..], leaf, env[ls[0].name := Num(Last(ls[0]))]) == 0.0
  {
    hide Cal, Exact, Straight, Rise, Last, Times, Bend;
    var e := env[ls[0].name := Num(Last(ls[0]))];
    TwoDelaysOff(ls, leaf, env);
    NoRise(ls[1..], leaf, e);
    HalfZero(ls[1].size, Rise(ls[1..], leaf, e));
    HalfZero(ls[0].size, Times(ls[1].size, Rise(ls[1..], leaf, e)) / 2.0);
  }

  // ----- one delay under any number of arrays -----------------------------------------------------------------

  predicate OneDelay(ls: seq<Level>) {
    ls != [] && if ls[0].Ni? then Sweeps(ls[1..]) else OneDelay(ls[1..])
  }

  function TheDelay(ls: seq<Level>): (l: Level)
    requires OneDelay(ls)
    ensures l.Ni?
  {
    if ls[0].Ni? then ls[0] else TheDelay(ls[1..])
  }

  /** What the delay makes longer in all its calls but the first, added up. */
  function LaterRises(ls: seq<Level>, leaf: Env -> real, e: Env, again: bool): real
    requires ValidLevels(ls) && OneDelay(ls)
    decreases |ls|, 1, 0
  {
    if ls[0].Ni? then (if again then Rise(ls, leaf, e) else 0.0) else LaterRisesRows(ls, leaf, e, 0, again)
  }

  function LaterRisesRows(ls: seq<Level>, leaf: Env -> real, e: Env, k: nat, again: bool): real
    requires ValidLevels(ls) && OneDelay(ls) && ls[0].Sweep? && k <= ls[0].size
    decreases |ls|, 0, ls[0].size - k
  {
    if k == ls[0].size then 0.0
    else LaterRises(ls[1..], leaf, AtRow(e, ls[0], k), again || k > 0) + LaterRisesRows(ls, leaf, e, k + 1, again)
  }

  lemma {:induction false} DelayIsThere(ls: seq<Level>)
    requires OneDelay(ls)
    ensures Delays(ls) == {TheDelay(ls).name}
  {
    if ls[0].Ni? {
      NoDelays(ls[1..]);
    } else {
      DelayIsThere(ls[1..]);
    }
  }

  lemma {:induction false} NoDelays(ls: seq<Level>)
    requires Sweeps(ls)
    ensures Delays(ls) == {}
  {
    if ls != [] { NoDelays(ls[1..]); }
  }

  lemma HoldsSame(e: Env, f: Env, name: string, v: real, names: set<string>)
    requires Holds(e, name, v) && AgreeOff(e, f, names) && name !in names
    ensures Holds(f, name, v)
  {
    assert Same(e, f, name);
  }

  lemma HalfAdds(n: nat, x: real, y: real)
    ensures Times(n, x + y) / 2.0 == Times(n, x) / 2.0 + Times(n, y) / 2.0
    ensures Times(n, 0.0) / 2.0 == 0.0
  {
    assert n as real * (x + y) == n as real * x + n as real * y;
  }

  lemma {:induction false} OneDelayOff(ls: seq<Level>, leaf: Env -> real, e: Env, again: bool)
    requires ValidLevels(ls) && OneDelay(ls) && Apart(ls) && Straight(ls, leaf, e, again)
    requires !again ==> Holds(e, TheDelay(ls).name, TheDelay(ls).first)
    ensures Off(ls, leaf, e, again) == Times(TheDelay(ls).size, LaterRises(ls, leaf, e, again)) / 2.0
    decreases |ls|, 1, 0
  {
    hide Excess, Last, Rise, Bend, Under, LevelNames, Times;
    if ls[0].Ni? {
      NiIsOff(ls, leaf, e, again);
      ExcessZero(ls, leaf, e, ls[0].first);
      HalfAdds(ls[0].size, 0.0, 0.0);
    } else {
      OneDelayRows(ls, leaf, e, 0, again);
    }
  }

  lemma {:induction false} OneDelayRows(ls: seq<Level>, leaf: Env -> real, e: Env, k: nat, again: bool)
    requires ValidLevels(ls) && OneDelay(ls) && Apart(ls) && ls[0].Sweep? && k <= ls[0].size
    requires Straight(ls, leaf, e, again)
    requires !again ==> Holds(e, TheDelay(ls).name, TheDelay(ls).first)
    ensures OffRows(ls, leaf, e, k, again) == Times(TheDelay(ls).size, LaterRisesRows(ls, leaf, e, k, again)) / 2.0
    decreases |ls|, 0, ls[0].size - k
  {
    hide Last, Rise, AgreeOff, Off, LaterRises, Names, SetRow, Times;
    var d := TheDelay(ls);
    if k < ls[0].size {
      var f := AtRow(e, ls[0], k);
      DelayIsThere(ls[1..]);
      SetRowKeeps(e, ls[0].entries, k);
      if !again { HoldsSame(e, f, d.name, d.first, LevelNames(ls[0])); }
      OneDelayOff(ls[1..], leaf, f, again || k > 0);
      OneDelayRows(ls, leaf, e, k + 1, again);
      HalfAdds(d.size, LaterRises(ls[1..], leaf, f, again || k > 0), LaterRisesRows(ls, leaf, e, k + 1, again));
    } else {
      HalfAdds(d.size, 0.0, 0.0);
    }
  }

  /** Under arrays, with the delay at its first value to begin with, the total is exact just when all calls
      but the first take no longer for it, together. */
  lemma ReenteredExactlyWhen(ls: seq<Level>, leaf: Env -> real, env: Env)
    requires ValidLevels(ls) && OneDelay(ls) && Apart(ls) && Straight(ls, leaf, env, false)
    requires Holds(env, TheDelay(ls).name, TheDelay(ls).first)
    ensures Cal(ls, leaf, env).time == Exact(ls, leaf, env) <==>
              TheDelay(ls).size == 0 || LaterRises(ls, leaf, env, false) == 0.0
  {
    hide Cal, Exact, Straight, LaterRises, Off, Times;
    DelayIsThere(ls);
    EstimateIsOff(ls, leaf, env);
    OneDelayOff(ls, leaf, env, false);
    HalfZero(TheDelay(ls).size, LaterRises(ls, leaf, env, false));
  }

  // ----- times that do not fall when a delay grows ----------------------------------------------------------------

  ghost predicate AtFirst(ls: seq<Level>, e: Env) {
    forall i :: 0 <= i < |ls| && ls[i].Ni? ==> Holds(e, ls[i].name, ls[i].first)
  }

  /** No call takes less time at the last value of its delay than at the first. */
  ghost predicate Rising(ls: seq<Level>, leaf: Env -> real, e: Env, again: bool)
    requires ValidLevels(ls)
    decreases |ls|
  {
    ls == [] ||
    (if ls[0].Sweep? then
       forall k: nat :: k < ls[0].size ==> Rising(ls[1..], leaf, AtRow(e, ls[0], k), again || k > 0)
     else
       ls[0].size == 0 ||
       (&& Rise(ls, leaf, e) >= 0.0
        && Rising(ls[1..], leaf, e[ls[0].name := Num(Start(ls[0], e, again))], again)
        && Rising(ls[1..], leaf, e[ls[0].name := Num(Last(ls[0]))], true)))
  }

  /** No delay is entered again where it matters. */
  ghost predicate Harmless(ls: seq<Level>, leaf: Env -> real, e: Env, again: bool)
    requires ValidLevels(ls)
    decreases |ls|
  {
    ls == [] ||
    (if ls[0].Sweep? then
       forall k: nat :: k < ls[0].size ==> Harmless(ls[1..], leaf, AtRow(e, ls[0], k), again || k > 0)
     else
       ls[0].size == 0 ||
       (&& (again ==> Rise(ls, leaf, e) == 0.0)
        && Harmless(ls[1..], leaf, e[ls[0].name := Num(Start(ls[0], e, again))], again)
        && Harmless(ls[1..], leaf, e[ls[0].name := Num(Last(ls[0]))], true)))
  }

  lemma {:induction false} DelayAt(ls: seq<Level>, i: nat)
    requires i < |ls| && ls[i].Ni?
    ensures ls[i].name in Delays(ls)
  {
    if i > 0 { DelayAt(ls[1..], i - 1); }
  }

  lemma AtFirstSame(ls: seq<Level>, e: Env, f: Env, names: set<string>)
    requires AtFirst(ls, e) && AgreeOff(e, f, names) && names !! Delays(ls)
    ensures AtFirst(ls, f)
  {
    forall i | 0 <= i < |ls| && ls[i].Ni? ensures Holds(f, ls[i].name, ls[i].first) {
      DelayAt(ls, i);
      HoldsSame(e, f, ls[i].name, ls[i].first, names);
    }
  }

  lemma AtFirstRest(ls: seq<Level>, e: Env)
    requires AtFirst(ls, e) && ls != []
    ensures AtFirst(ls[1..], e) && (ls[0].Ni? ==> Holds(e, ls[0].name, ls[0].first))
  {
    forall i | 0 <= i < |ls| - 1 && ls[1..][i].Ni? ensures Holds(e, ls[1..][i].name, ls[1..][i].first) {
      assert ls[1..][i] == ls[i + 1];
    }
  }

  lemma HalfSign(n: nat, x: real, y: real)
    requires x >= 0.0 && y >= 0.0
    ensures Times(n, x + y) / 2.0 >= 0.0
    ensures Times(n, x + y) / 2.0 == 0.0 <==> n == 0 || (x == 0.0 && y == 0.0)
  {
    AtLeast(n, x + y);
    HalfZero(n, x + y);
  }

  lemma AtLeast(n: nat, x: real)
    requires x >= 0.0
    ensures Times(n, x) >= 0.0
  {
  }

  lemma {:induction false} OffSign(ls: seq<Level>, leaf: Env -> real, e: Env, again: bool)
    requires ValidLevels(ls) && Apart(ls) && Straight(ls, leaf, e, again) && Rising(ls, leaf, e, again)
    requires !again ==> AtFirst(ls, e)
    ensures Off(ls, leaf, e, again) >= 0.0
    ensures Off(ls, leaf, e, again) == 0.0 <==> Harmless(ls, leaf, e, again)
    decreases |ls|, 1, 0
  {
    if ls != [] {
      if ls[0].Sweep? {
        RowsSign(ls, leaf, e, 0, again);
      } else {
        DelaySign(ls, leaf, e, again);
      }
    }
  }

  lemma {:induction false} DelaySign(ls: seq<Level>, leaf: Env -> real, e: Env, again: bool)
    requires ValidLevels(ls) && Apart(ls) && ls != [] && ls[0].Ni?
    requires Straight(ls, leaf, e, again) && Rising(ls, leaf, e, again) && (!again ==> AtFirst(ls, e))
    ensures Off(ls, leaf, e, again) >= 0.0
    ensures Off(ls, leaf, e, again) == 0.0 <==> Harmless(ls, leaf, e, again)
    decreases |ls|, 0, 0
  {
    hide Excess, Times, Last, Rise, Bend, Under, AtFirst;
    var l, rest, v := ls[0], ls[1..], Start(ls[0], e, again);
    var x, y := Off(rest, leaf, e[l.name := Num(v)], again), Off(rest, leaf, e[l.name := Num(Last(l))], true);
    NoRise(ls, leaf, e);
    ExcessZero(ls, leaf, e, v);
    HalfZero(l.size, Rise(ls, leaf, e));
    if l.size == 0 {
      HalfZero(0, x + y);
    } else {
      if !again {
        AtFirstRest(ls, e);
        assert e[l.name := Num(v)] == e;
      }
      OffSign(rest, leaf, e[l.name := Num(v)], again);
      OffSign(rest, leaf, e[l.name := Num(Last(l))], true);
      AtLeast(l.size, Rise(ls, leaf, e));
      HalfSign(l.size, x, y);
    }
  }

  lemma {:induction false} RowsSign(ls: seq<Level>, leaf: Env -> real, e: Env, k: nat, again: bool)
    requires ValidLevels(ls) && Apart(ls) && ls != [] && ls[0].Sweep? && k <= ls[0].size
    requires Straight(ls, leaf, e, again) && Rising(ls, leaf, e, again) && (!again ==> AtFirst(ls, e))
    ensures OffRows(ls, leaf, e, k, again) >= 0.0
    ensures OffRows(ls, leaf, e, k, again) == 0.0 <==>
              forall j: nat :: k <= j < ls[0].size ==> Harmless(ls[1..], leaf, AtRow(e, ls[0], j), again || j > 0)
    decreases |ls|, 0, ls[0].size - k
  {
    hide Off, Harmless, AtFirst, Names, AgreeOff, SetRow;
    if k < ls[0].size {
      var f := AtRow(e, ls[0], k);
      if !again {
        AtFirstRest(ls, e);
        SetRowKeeps(e, ls[0].entries, k);
        AtFirstSame(ls[1..], e, f, LevelNames(ls[0]));
      }
      OffSign(ls[1..], leaf, f, again || k > 0);
      RowsSign(ls, leaf, e, k + 1, again);
    }
  }

  lemma {:induction false} FirstIsBegun(ls: seq<Level>, e: Env)
    requires AtFirst(ls, e)
    ensures Begun(ls, e)
  {
    if ls != [] {
      AtFirstRest(ls, e);
      FirstIsBegun(ls[1..], e);
    }
  }

  /** Such an estimate is never too short, and it is exact just when no delay is entered again where it
      matters. */
  lemma EstimateExactlyWhen(ls: seq<Level>, leaf: Env -> real, env: Env)
    requires ValidLevels(ls) && Apart(ls) && AtFirst(ls, env)
    requires Straight(ls, leaf, env, false) && Rising(ls, leaf, env, false)
    ensures Cal(ls, leaf, env).time >= Exact(ls, leaf, env)
    ensures Cal(ls, leaf, env).time == Exact(ls, leaf, env) <==> Harmless(ls, leaf, env, false)
  {
    hide Cal, Exact, Straight, Off, Rising, Harmless;
    FirstIsBegun(ls, env);
    EstimateIsOff(ls, leaf, env);
    OffSign(ls, leaf, env, false);
  }

  // ----- times that grow with every delay ---------------------------------------------------------------------------

  /** No level is empty, and every call takes longer at the last value of its delay, where that is another
      than the first. */
  ghost predicate Growing(ls: seq<Level>, leaf: Env -> real, e: Env, again: bool)
    requires ValidLevels(ls)
    decreases |ls|
  {
    ls == [] ||
    (&& ls[0].size > 0
     && if ls[0].Sweep? then
          forall k: nat :: k < ls[0].size ==> Growing(ls[1..], leaf, AtRow(e, ls[0], k), again || k > 0)
        else
          && (Still(ls[0]) || Rise(ls, leaf, e) > 0.0)
          && Growing(ls[1..], leaf, e[ls[0].name := Num(Start(ls[0], e, again))], again)
          && Growing(ls[1..], leaf, e[ls[0].name := Num(Last(ls[0]))], true))
  }

  /** A delay below another, or below an array of two or more values, does not step. */
  predicate Settled(ls: seq<Level>, again: bool) {
    ls == [] || (&& (ls[0].Ni? && again ==> Still(ls[0]))
                 && Settled(ls[1..], again || ls[0].Ni? || ls[0].size > 1))
  }

  lemma {:induction false} SettledAgain(ls: seq<Level>, again: bool)
    requires Settled(ls, true)
    ensures Settled(ls, again)
  {
    if ls != [] { SettledAgain(ls[1..], again || ls[0].Ni? || ls[0].size > 1); }
  }

  lemma {:induction false} GrowingSettles(ls: seq<Level>, leaf: Env -> real, e: Env, again: bool)
    requires ValidLevels(ls) && Growing(ls, leaf, e, again)
    ensures Rising(ls, leaf, e, again) && (Harmless(ls, leaf, e, again) <==> Settled(ls, again))
    decreases |ls|
  {
    hide Rise, Bend, Still, AtRow;
    if ls != [] {
      var l, rest := ls[0], ls[1..];
      if Settled(rest, true) { SettledAgain(rest, again); }
      if l.Ni? {
        NoRise(ls, leaf, e);
        GrowingSettles(rest, leaf, e[l.name := Num(Start(l, e, again))], again);
        GrowingSettles(rest, leaf, e[l.name := Num(Last(l))], true);
      } else {
        forall k: nat | k < l.size
          ensures Rising(rest, leaf, AtRow(e, l, k), again || k > 0)
          ensures Harmless(rest, leaf, AtRow(e, l, k), again || k > 0) <==> Settled(rest, again || k > 0)
        {
          GrowingSettles(rest, leaf, AtRow(e, l, k), again || k > 0);
        }
        assert l.size > 0;
        if Harmless(ls, leaf, e, again) {
          assert Harmless(rest, leaf, AtRow(e, l, 0), again || 0 > 0);
          if l.size > 1 { assert Harmless(rest, leaf, AtRow(e, l, 1), again || 1 > 0); }
        }
      }
    }
  }

  // ----- what the time of one combination has to be for that ---------------------------------------------------

  predicate HoldsValue(l: Level, e: Env)
    requires l.Ni?
  {
    exists k: nat :: k < l.size && Holds(e, l.name, Delay(l, k))
  }

  /** Every delay but those named holds one of its own values, as it does when a combination is timed. */
  ghost predicate Possible(all: seq<Level>, e: Env, but: set<string>) {
    forall i :: 0 <= i < |all| && all[i].Ni? && all[i].name !in but ==> HoldsValue(all[i], e)
  }

  predicate StepAt(leaf: Env -> real, e: Env, l: Level, k: nat)
    requires l.Ni?
  {
    leaf(e[l.name := Num(Delay(l, k + 1))]) - leaf(e[l.name := Num(Delay(l, k))])
    == leaf(e[l.name := Num(Delay(l, 1))]) - leaf(e[l.name := Num(Delay(l, 0))])
  }

  /** From each value of a delay to its next, the time of one combination grows by the same ... */
  ghost predicate EvenLeaf(all: seq<Level>, leaf: Env -> real) {
    forall e, i, k: nat :: 0 <= i < |all| && all[i].Ni? && Possible(all, e, {}) && k + 1 < all[i].size ==>
                             StepAt(leaf, e, all[i], k)
  }

  predicate GrowsIn(leaf: Env -> real, e: Env, l: Level)
    requires l.Ni?
  {
    leaf(e[l.name := Num(l.first)]) < leaf(e[l.name := Num(Last(l))])
  }

  /** ... and by more than nothing. */
  ghost predicate GrowingLeaf(all: seq<Level>, leaf: Env -> real) {
    forall e, i :: 0 <= i < |all| && all[i].Ni? && !Still(all[i]) && Possible(all, e, {}) ==> GrowsIn(leaf, e, all[i])
  }

  /** No level is empty. */
  predicate Filled(ls: seq<Level>) {
    forall i :: 0 <= i < |ls| ==> ls[i].size > 0
  }

  lemma {:induction false} SetRowCommutes(e: Env, entries: seq<Entry>, k: nat, name: string, x: Value)
    requires Row(entries, k) && name !in EntryNames(entries)
    ensures SetRow(e[name := x], entries, k) == SetRow(e, entries, k)[name := x]
    decreases |entries|
  {
    if entries != [] {
      var n, v := entries[0].name, entries[0].vals[k];
      assert n in EntryNames(entries);
      assert e[name := x][n := v] == e[n := v][name := x];
      assert forall i :: 0 <= i < |entries| - 1 ==> entries[1..][i] == entries[i + 1];
      SetRowCommutes(e[n := v], entries[1..], k, name, x);
    }
  }

  lemma AtRowCommutes(e: Env, l: Level, k: nat, name: string, x: Value)
    requires ValidLevel(l) && k < l.size && name !in LevelNames(l)
    ensures AtRow(e[name := x], l, k) == AtRow(e, l, k)[name := x]
  {
    if l.Sweep? {
      SetRowCommutes(e, l.entries, k, name, x);
    } else {
      assert e[name := x][l.name := Num(Delay(l, k))] == e[l.name := Num(Delay(l, k))][name := x];
    }
  }

  lemma {:induction false} NamesAt(ls: seq<Level>, i: nat)
    requires i < |ls|
    ensures LevelNames(ls[i]) <= Names(ls)
  {
    if i > 0 { NamesAt(ls[1..], i - 1); }
  }

  /** A level never sets the delay of another. */
  lemma {:induction false} ApartPair(ls: seq<Level>, i: nat, j: nat)
    requires Apart(ls) && i < |ls| && j < |ls| && i != j && ls[j].Ni?
    ensures ls[j].name !in LevelNames(ls[i])
  {
    if i == 0 {
      DelayAt(ls[1..], j - 1);
    } else if j == 0 {
      NamesAt(ls[1..], i - 1);
    } else {
      ApartPair(ls[1..], i - 1, j - 1);
    }
  }

  /** Row by row, the delays keep or take values of their own. */
  lemma StaysPossible(all: seq<Level>, j: nat, e: Env, k: nat, but: set<string>)
    requires ValidLevels(all) && Apart(all) && j < |all| && k < all[j].size
    requires Possible(all, e, Delays(all[j..]) + but)
    ensures Possible(all, AtRow(e, all[j], k), Delays(all[j + 1..]) + but)
  {
    hide Delay;
    var l, f := all[j], AtRow(e, all[j], k);
    assert all[j..][1..] == all[j + 1..] && all[j..][0] == l;
    forall i | 0 <= i < |all| && all[i].Ni? && all[i].name !in Delays(all[j + 1..]) + but
      ensures HoldsValue(all[i], f)
    {
      if i == j {
        assert Holds(f, l.name, Delay(l, k));
      } else {
        ApartPair(all, j, i);
        assert all[i].name !in Delays(all[j..]);
        var m: nat :| m < all[i].size && Holds(e, all[i].name, Delay(all[i], m));
        RowKeeps(e, l, k);
        assert Same(e, f, all[i].name);
        assert Holds(f, all[i].name, Delay(all[i], m));
      }
    }
  }

  lemma RowKeeps(e: Env, l: Level, k: nat)
    requires ValidLevel(l) && k < l.size
    ensures AgreeOff(e, AtRow(e, l, k), LevelNames(l))
  {
    if l.Sweep? { SetRowKeeps(e, l.entries, k); }
  }

  lemma PutBack(all: seq<Level>, i: nat, e: Env)
    requires Apart(all) && i < |all| && all[i].Ni? && all[i].size > 0 && Possible(all, e, {all[i].name})
    ensures Possible(all, e[all[i].name := Num(Delay(all[i], 0))], {})
  {
    hide Delay;
    var f := e[all[i].name := Num(Delay(all[i], 0))];
    forall m | 0 <= m < |all| && all[m].Ni? ensures HoldsValue(all[m], f) {
      if m == i {
        assert Holds(f, all[m].name, Delay(all[m], 0));
      } else {
        ApartPair(all, i, m);
        assert HoldsValue(all[m], e);
        var k: nat :| k < all[m].size && Holds(e, all[m].name, Delay(all[m], k));
        assert Holds(f, all[m].name, Delay(all[m], k));
      }
    }
  }

  /** What the sum over the levels from j on gains when the delay i, above them, goes from y to x. */
  function Gain(all: seq<Level>, j: nat, leaf: Env -> real, e: Env, i: nat, x: real, y: real): real
    requires ValidLevels(all) && i < j <= |all| && all[i].Ni?
  {
    Exact(all[j..], leaf, e[all[i].name := Num(x)]) - Exact(all[j..], leaf, e[all[i].name := Num(y)])
  }

  function GainRows(all: seq<Level>, j: nat, leaf: Env -> real, e: Env, i: nat, x: real, y: real, r: nat): real
    requires ValidLevels(all) && i < j < |all| && all[i].Ni? && r <= all[j].size
  {
    ExactRows(all[j..], leaf, e[all[i].name := Num(x)], r) - ExactRows(all[j..], leaf, e[all[i].name := Num(y)], r)
  }

  lemma GainOfRows(all: seq<Level>, j: nat, leaf: Env -> real, e: Env, i: nat, x: real, y: real)
    requires ValidLevels(all) && i < j < |all| && all[i].Ni?
    ensures Gain(all, j, leaf, e, i, x, y) == GainRows(all, j, leaf, e, i, x, y, 0)
  {
    ExactOfRows(all[j..], leaf, e[all[i].name := Num(x)]);
    ExactOfRows(all[j..], leaf, e[all[i].name := Num(y)]);
  }

  lemma GainRow(all: seq<Level>, j: nat, leaf: Env -> real, e: Env, i: nat, x: real, y: real, r: nat)
    requires ValidLevels(all) && Apart(all) && i < j < |all| && all[i].Ni? && r < all[j].size
    ensures GainRows(all, j, leaf, e, i, x, y, r)
            == Gain(all, j + 1, leaf, AtRow(e, all[j], r), i, x, y) + GainRows(all, j, leaf, e, i, x, y, r + 1)
  {
    hide Exact, AtRow;
    var n := all[i].name;
    ApartPair(all, j, i);
    AtRowCommutes(e, all[j], r, n, Num(x));
    AtRowCommutes(e, all[j], r, n, Num(y));
    assert all[j..][1..] == all[j + 1..] && all[j..][0] == all[j];
  }

  lemma NoRows(all: seq<Level>, j: nat, leaf: Env -> real, e: Env, i: nat, x: real, y: real)
    requires ValidLevels(all) && i < j < |all| && all[i].Ni?
    ensures GainRows(all, j, leaf, e, i, x, y, all[j].size) == 0.0
  {
  }

  /** An even time makes every sum even. */
  lemma {:induction false} SumEven(all: seq<Level>, j: nat, leaf: Env -> real, e: Env, i: nat, k: nat)
    requires ValidLevels(all) && Apart(all) && i < j <= |all| && all[i].Ni? && k + 1 < all[i].size
    requires EvenLeaf(all, leaf) && Possible(all, e, Delays(all[j..]) + {all[i].name})
    ensures Gain(all, j, leaf, e, i, Delay(all[i], k + 1), Delay(all[i], k))
            == Gain(all, j, leaf, e, i, Delay(all[i], 1), Delay(all[i], 0))
    decreases |all| - j, 1, 0
  {
    hide Delay;
    if j == |all| {
      LeafEven(all, leaf, e, i, k);
    } else {
      hide Gain, GainRows, Possible, EvenLeaf;
      GainOfRows(all, j, leaf, e, i, Delay(all[i], k + 1), Delay(all[i], k));
      GainOfRows(all, j, leaf, e, i, Delay(all[i], 1), Delay(all[i], 0));
      RowsEven(all, j, leaf, e, i, k, 0);
    }
  }

  lemma LeafEven(all: seq<Level>, leaf: Env -> real, e: Env, i: nat, k: nat)
    requires ValidLevels(all) && Apart(all) && i < |all| && all[i].Ni? && k + 1 < all[i].size
    requires EvenLeaf(all, leaf) && Possible(all, e, Delays(all[|all|..]) + {all[i].name})
    ensures Gain(all, |all|, leaf, e, i, Delay(all[i], k + 1), Delay(all[i], k))
            == Gain(all, |all|, leaf, e, i, Delay(all[i], 1), Delay(all[i], 0))
  {
    hide Delay, Apart, EvenLeaf, Possible;
    var l, f := all[i], e[all[i].name := Num(Delay(all[i], 0))];
    assert all[|all|..] == [] && Delays(all[|all|..]) + {l.name} == {l.name};
    PutBack(all, i, e);
    EvenStep(all, leaf, f, i, k);
    Twice(e, l.name, Delay(l, 0), Delay(l, k + 1));
    Twice(e, l.name, Delay(l, 0), Delay(l, k));
    Twice(e, l.name, Delay(l, 0), Delay(l, 1));
    Twice(e, l.name, Delay(l, 0), Delay(l, 0));
  }

  lemma Twice(e: Env, name: string, x: real, y: real)
    ensures e[name := Num(x)][name := Num(y)] == e[name := Num(y)]
  {
  }

  lemma EvenStep(all: seq<Level>, leaf: Env -> real, e: Env, i: nat, k: nat)
    requires EvenLeaf(all, leaf) && Possible(all, e, {}) && i < |all| && all[i].Ni? && k + 1 < all[i].size
    ensures StepAt(leaf, e, all[i], k)
  {
  }

  lemma {:induction false} RowsEven(all: seq<Level>, j: nat, leaf: Env -> real, e: Env, i: nat, k: nat, r: nat)
    requires ValidLevels(all) && Apart(all) && i < j < |all| && all[i].Ni? && k + 1 < all[i].size && r <= all[j].size
    requires EvenLeaf(all, leaf) && Possible(all, e, Delays(all[j..]) + {all[i].name})
    ensures GainRows(all, j, leaf, e, i, Delay(all[i], k + 1), Delay(all[i], k), r)
            == GainRows(all, j, leaf, e, i, Delay(all[i], 1), Delay(all[i], 0), r)
    decreases |all| - j, 0, all[j].size - r
  {
    hide Delay, Gain, GainRows, Possible, EvenLeaf, AtRow;
    var x1, x0, y1, y0 := Delay(all[i], k + 1), Delay(all[i], k), Delay(all[i], 1), Delay(all[i], 0);
    if r == all[j].size {
      NoRows(all, j, leaf, e, i, x1, x0);
      NoRows(all, j, leaf, e, i, y1, y0);
    } else {
      GainRow(all, j, leaf, e, i, x1, x0, r);
      GainRow(all, j, leaf, e, i, y1, y0, r);
      StaysPossible(all, j, e, r, {all[i].name});
      SumEven(all, j + 1, leaf, AtRow(e, all[j], r), i, k);
      RowsEven(all, j, leaf, e, i, k, r + 1);
    }
  }

  /** A growing time makes every sum grow. */
  lemma {:induction false} SumGrows(all: seq<Level>, j: nat, leaf: Env -> real, e: Env, i: nat)
    requires ValidLevels(all) && Apart(all) && Filled(all) && i < j <= |all| && all[i].Ni? && !Still(all[i])
    requires GrowingLeaf(all, leaf) && Possible(all, e, Delays(all[j..]) + {all[i].name})
    ensures Gain(all, j, leaf, e, i, Last(all[i]), all[i].first) > 0.0
    decreases |all| - j, 1, 0
  {
    hide Last, Delay, Still;
    if j == |all| {
      var f := e[all[i].name := Num(Delay(all[i], 0))];
      assert Possible(all, e, {all[i].name});
      PutBack(all, i, e);
      assert GrowsIn(leaf, f, all[i]);
      Twice(e, all[i].name, Delay(all[i], 0), Last(all[i]));
      Twice(e, all[i].name, Delay(all[i], 0), all[i].first);
    } else {
      hide Gain, GainRows, Possible, GrowingLeaf;
      GainOfRows(all, j, leaf, e, i, Last(all[i]), all[i].first);
      RowsGrow(all, j, leaf, e, i, 0);
    }
  }

  lemma {:induction false} RowsGrow(all: seq<Level>, j: nat, leaf: Env -> real, e: Env, i: nat, r: nat)
    requires ValidLevels(all) && Apart(all) && Filled(all) && i < j < |all| && all[i].Ni? && !Still(all[i])
    requires GrowingLeaf(all, leaf) && Possible(all, e, Delays(all[j..]) + {all[i].name}) && r <= all[j].size
    ensures GainRows(all, j, leaf, e, i, Last(all[i]), all[i].first, r) >= 0.0
    ensures r < all[j].size ==> GainRows(all, j, leaf, e, i, Last(all[i]), all[i].first, r) > 0.0
    decreases |all| - j, 0, all[j].size - r
  {
    hide Last, Gain, GainRows, Possible, GrowingLeaf, AtRow, Still;
    if r == all[j].size {
      NoRows(all, j, leaf, e, i, Last(all[i]), all[i].first);
    } else {
      GainRow(all, j, leaf, e, i, Last(all[i]), all[i].first, r);
      StaysPossible(all, j, e, r, {all[i].name});
      SumGrows(all, j + 1, leaf, AtRow(e, all[j], r), i);
      RowsGrow(all, j, leaf, e, i, r + 1);
    }
  }

  /** Of the calls under delay j: the times are even, and grow. */
  lemma CallEven(all: seq<Level>, j: nat, leaf: Env -> real, e: Env)
    requires ValidLevels(all) && Apart(all) && j < |all| && all[j].Ni? && Possible(all, e, Delays(all[j..]))
    ensures EvenLeaf(all, leaf) ==> Bend(all[j..], leaf, e) == 0.0
    ensures Filled(all) && GrowingLeaf(all, leaf) && !Still(all[j]) ==> Rise(all[j..], leaf, e) > 0.0
  {
    hide Delay, Last, EvenLeaf, GrowingLeaf, Still, Bend, Possible, Exact, Filled;
    var ls := all[j..];
    assert ls[1..] == all[j + 1..] && ls[0] == all[j];
    assert Delays(ls) == Delays(all[j + 1..]) + {all[j].name};
    if EvenLeaf(all, leaf) {
      forall k: nat | k + 1 < ls[0].size ensures EvenAt(ls, leaf, e, k) {
        SumEven(all, j + 1, leaf, e, j, k);
      }
      EvenIsStraight(ls, leaf, e);
    }
    if Filled(all) && GrowingLeaf(all, leaf) && !Still(all[j]) { SumGrows(all, j + 1, leaf, e, j); }
  }

  lemma RowPossible(all: seq<Level>, j: nat, e: Env, k: nat)
    requires ValidLevels(all) && Apart(all) && j < |all| && k < all[j].size && Possible(all, e, Delays(all[j..]))
    ensures Possible(all, AtRow(e, all[j], k), Delays(all[j + 1..]))
  {
    hide Possible, AtRow, Delays, Apart;
    NoMore(Delays(all[j..]));
    NoMore(Delays(all[j + 1..]));
    StaysPossible(all, j, e, k, {});
  }

  lemma NoMore(names: set<string>)
    ensures names + {} == names
  {
  }

  /** The values that the two calls under delay j are made with. */
  lemma CallPossible(all: seq<Level>, j: nat, e: Env, again: bool)
    requires ValidLevels(all) && Apart(all) && j < |all| && all[j].Ni? && all[j].size > 0
    requires Possible(all, e, Delays(all[j..])) && (!again ==> AtFirst(all[j..], e))
    ensures Possible(all, e[all[j].name := Num(Start(all[j], e, again))], Delays(all[j + 1..]))
    ensures Possible(all, e[all[j].name := Num(Last(all[j]))], Delays(all[j + 1..]))
    ensures !again ==> AtFirst(all[j + 1..], e[all[j].name := Num(Start(all[j], e, again))])
  {
    hide Last, Possible, Delays, Apart, AtFirst, Delay;
    var l := all[j];
    Ends(l);
    ValuePossible(all, j, e, 0);
    ValuePossible(all, j, e, l.size - 1);
    if !again { StartsFirst(all, j, e); }
  }

  lemma ValuePossible(all: seq<Level>, j: nat, e: Env, k: nat)
    requires ValidLevels(all) && Apart(all) && j < |all| && all[j].Ni? && k < all[j].size
    requires Possible(all, e, Delays(all[j..]))
    ensures Possible(all, e[all[j].name := Num(Delay(all[j], k))], Delays(all[j + 1..]))
  {
    hide Possible, Delays, Apart, Delay;
    RowPossible(all, j, e, k);
  }

  lemma StartsFirst(all: seq<Level>, j: nat, e: Env)
    requires j < |all| && all[j].Ni? && AtFirst(all[j..], e)
    ensures Start(all[j], e, false) == all[j].first
    ensures AtFirst(all[j + 1..], e[all[j].name := Num(Start(all[j], e, false))])
  {
    hide AtFirst;
    assert all[j..][1..] == all[j + 1..] && all[j..][0] == all[j];
    AtFirstRest(all[j..], e);
    SameUpdate(e, all[j].name, all[j].first);
  }

  lemma SameUpdate(e: Env, name: string, x: real)
    requires Holds(e, name, x)
    ensures e[name := Num(x)] == e
  {
  }

  lemma RowFirst(all: seq<Level>, j: nat, e: Env, k: nat)
    requires ValidLevels(all) && Apart(all) && j < |all| && all[j].Sweep? && k < all[j].size && AtFirst(all[j..], e)
    ensures AtFirst(all[j + 1..], AtRow(e, all[j], k))
  {
    hide AtFirst;
    assert all[j..][1..] == all[j + 1..] && all[j..][0] == all[j];
    AtFirstRest(all[j..], e);
    RowKeeps(e, all[j], k);
    ApartFrom(all, j);
    AtFirstSame(all[j + 1..], e, AtRow(e, all[j], k), LevelNames(all[j]));
  }

  lemma {:induction false} ApartFrom(all: seq<Level>, j: nat)
    requires Apart(all) && j < |all|
    ensures LevelNames(all[j]) !! Delays(all[j + 1..]) && Apart(all[j..])
  {
    if j == 0 {
      assert all[0..] == all;
    } else {
      ApartFrom(all[1..], j - 1);
      assert all[1..][j - 1..] == all[j..] && all[1..][j..] == all[j + 1..];
    }
  }

  /** A time that steps evenly with each delay makes n/2 times first and last right in every call. */
  lemma {:induction false} LeafIsStraight(all: seq<Level>, j: nat, leaf: Env -> real, e: Env, again: bool)
    requires ValidLevels(all) && Apart(all) && Filled(all) && j <= |all| && EvenLeaf(all, leaf)
    requires Possible(all, e, Delays(all[j..])) && (!again ==> AtFirst(all[j..], e))
    ensures Straight(all[j..], leaf, e, again)
    decreases |all| - j
  {
    hide Last, AtRow, Bend, EvenLeaf, Possible, AtFirst, Start, Rise;
    if j < |all| {
      var l := all[j];
      assert all[j..][1..] == all[j + 1..] && all[j..][0] == l;
      if l.Ni? {
        CallEven(all, j, leaf, e);
        CallPossible(all, j, e, again);
        LeafIsStraight(all, j + 1, leaf, e[l.name := Num(Start(l, e, again))], again);
        LeafIsStraight(all, j + 1, leaf, e[l.name := Num(Last(l))], true);
      } else {
        forall k: nat | k < l.size ensures Straight(all[j + 1..], leaf, AtRow(e, l, k), again || k > 0) {
          RowPossible(all, j, e, k);
          if !again { RowFirst(all, j, e, k); }
          LeafIsStraight(all, j + 1, leaf, AtRow(e, l, k), again || k > 0);
        }
      }
    }
  }

  lemma {:induction false} LeafIsGrowing(all: seq<Level>, j: nat, leaf: Env -> real, e: Env, again: bool)
    requires ValidLevels(all) && Apart(all) && Filled(all) && j <= |all| && GrowingLeaf(all, leaf)
    requires Possible(all, e, Delays(all[j..])) && (!again ==> AtFirst(all[j..], e))
    ensures Growing(all[j..], leaf, e, again)
    decreases |all| - j
  {
    hide Last, AtRow, Bend, GrowingLeaf, Possible, AtFirst, Start, Rise, Still;
    if j < |all| {
      var l := all[j];
      assert all[j..][1..] == all[j + 1..] && all[j..][0] == l;
      if l.Ni? {
        CallEven(all, j, leaf, e);
        CallPossible(all, j, e, again);
        LeafIsGrowing(all, j + 1, leaf, e[l.name := Num(Start(l, e, again))], again);
        LeafIsGrowing(all, j + 1, leaf, e[l.name := Num(Last(l))], true);
      } else {
        forall k: nat | k < l.size ensures Growing(all[j + 1..], leaf, AtRow(e, l, k), again || k > 0) {
          RowPossible(all, j, e, k);
          if !again { RowFirst(all, j, e, k); }
          LeafIsGrowing(all, j + 1, leaf, AtRow(e, l, k), again || k > 0);
        }
      }
    }
  }

  lemma AllSkipped(all: seq<Level>, e: Env)
    ensures Possible(all, e, Delays(all))
  {
    forall i | 0 <= i < |all| && all[i].Ni? ensures all[i].name in Delays(all) {
      DelayAt(all, i);
    }
  }

  /** When the time of one combination grows evenly with every delay, a glance at the levels tells whether
      the estimate is right. */
  lemma GrowingExactlyWhen(ls: seq<Level>, leaf: Env -> real, env: Env)
    requires ValidLevels(ls) && Apart(ls) && AtFirst(ls, env) && Filled(ls)
    requires EvenLeaf(ls, leaf) && GrowingLeaf(ls, leaf)
    ensures Cal(ls, leaf, env).time == Exact(ls, leaf, env) <==> Settled(ls, false)
    ensures Cal(ls, leaf, env).time >= Exact(ls, leaf, env)
  {
    hide Cal, Exact, Straight, Growing, Rising, Harmless, Settled, Filled, EvenLeaf, GrowingLeaf, Possible, AtFirst;
    assert ls[0..] == ls;
    AllSkipped(ls, env);
    LeafIsStraight(ls, 0, leaf, env, false);
    LeafIsGrowing(ls, 0, leaf, env, false);
    GrowingSettles(ls, leaf, env, false);
    EstimateExactlyWhen(ls, leaf, env);
  }

  // ----- the smallest case -----------------------------------------------------------------------------------------

  function TimeIsD2(e: Env): real {
    if IsNum(e, "d2") then e["d2"].x else 0.0
  }

  lemma TwoValues(l: Level, rest: seq<Level>, leaf: Env -> real, e: Env)
    requires l.Ni? && l.size == 2 && ValidLevels(rest)
    ensures var c := Cal(rest, leaf, e);
            var d := Cal(rest, leaf, c.env[l.name := Num(Last(l))]);
            Cal([l] + rest, leaf, e) == Cost(c.time + d.time, d.env)
    ensures Exact([l] + rest, leaf, e)
            == Exact(rest, leaf, e[l.name := Num(l.first)]) + Exact(rest, leaf, e[l.name := Num(Last(l))])
  {
    var ls := [l] + rest;
    assert ls[1..] == rest && ls[0] == l;
    assert Delay(l, 0) == l.first && Delay(l, 1) == Last(l);
    assert ExactRows(ls, leaf, e, 2) == 0.0;
    assert ExactRows(ls, leaf, e, 1) == Exact(rest, leaf, AtRow(e, l, 1));
    assert ExactRows(ls, leaf, e, 0) == Exact(rest, leaf, AtRow(e, l, 0)) + ExactRows(ls, leaf, e, 1);
  }

  const D2 := Ni("d2", 0.0, 1.0, 2)
  const D3 := Ni("d3", 0.0, 1.0, 2)

  lemma D2Twice(e: Env)
    ensures Cal([D2], TimeIsD2, e) == Cost(TimeIsD2(e) + 1.0, e["d2" := Num(1.0)])
    ensures Exact([D2], TimeIsD2, e) == 1.0
  {
    TwoValues(D2, [], TimeIsD2, e);
    assert [D2] + [] == [D2];
  }

  /** Two increments of d3 and of d2, from 0 by 1, for a time that is d2: 3 instead of 2. */
  lemma SmallestMiscount()
    ensures var env := map["d2" := Num(0.0), "d3" := Num(0.0)];
            Cal([D3, D2], TimeIsD2, env).time == 3.0 && Exact([D3, D2], TimeIsD2, env) == 2.0
  {
    hide Cal, Exact;
    var env: Env := map["d2" := Num(0.0), "d3" := Num(0.0)];
    TwoValues(D3, [D2], TimeIsD2, env);
    assert [D3] + [D2] == [D3, D2];
    D2Twice(env);
    D2Twice(env["d2" := Num(1.0)]["d3" := Num(1.0)]);
    D2Twice(env["d3" := Num(0.0)]);
    D2Twice(env["d3" := Num(1.0)]);
  }
}
