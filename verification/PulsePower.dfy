/** Power: the register table of the dry pass. */
module PulsePower {
  import opened Common
  import opened PulseText

  // ----- the registers ----------------------------------------------------------------------------------

  ghost predicate Distinct(s: seq<int>) {
    forall i, j :: 0 <= i < j < |s| ==> s[i] != s[j]
  }

  /** The quantised powers a sequence asks for. */
  function Requested(calls: seq<Call>): set<int> {
    if calls == [] then {}
    else (if calls[0].RlPower? then {Quantise(calls[0].amp)} else {}) + Requested(calls[1..])
  }

  function Values(s: seq<int>): (r: set<int>)
    ensures forall x :: x in r <==> x in s
  {
    set x | x in s
  }

  lemma {:induction false} DistinctSize(s: seq<int>)
    requires Distinct(s)
    ensures |Values(s)| == |s|
  {
    if s != [] {
      var k := |s| - 1;
      DistinctSize(s[..k]);
      assert s == s[..k] + [s[k]];
      assert Values(s) == Values(s[..k]) + {s[k]} && s[k] !in Values(s[..k]);
    }
  }

  /** The powers that take a register: -1 is what a free one holds. */
  function Asked(calls: seq<Call>): set<int> {
    Requested(calls) - {UNUSED}
  }

  predicate AsksUnused(c: Call) {
    c.RlPower? && Quantise(c.amp) == UNUSED
  }

  /** With the powers of `have` in registers: all that is asked for fits, and whenever -1 is asked for there is
      a register left to be taken for it. */
  ghost predicate Fits(calls: seq<Call>, have: set<int>) {
    && |have + Asked(calls)| <= POWER_REGISTERS
    && forall k :: 0 <= k < |calls| && AsksUnused(calls[k]) ==> |have + Asked(calls[..k])| < POWER_REGISTERS
  }

  /** The registers r come of those in `from`, when `asked` is asked for and `fits` says that all is well. */
  ghost predicate Holds(r: Option<seq<int>>, from: seq<int>, asked: set<int>, fits: bool) {
    && (r.Some? <==> fits)
    && (r.Some? ==> from <= r.value && Distinct(r.value) && |r.value| <= POWER_REGISTERS
                    && UNUSED !in r.value && Values(r.value) == Values(from) + asked)
  }

  lemma AddOne(regs: seq<int>, val: int)
    requires |regs| <= POWER_REGISTERS && Distinct(regs) && UNUSED !in regs
    ensures Holds(AddPower(regs, val), regs, {val} - {UNUSED},
                  |Values(regs) + ({val} - {UNUSED})| <= POWER_REGISTERS - if val == UNUSED then 1 else 0)
  {
    DistinctSize(regs);
    if val in regs {
      assert {val} - {UNUSED} == {val} && Values(regs) + {val} == Values(regs);
    } else if val == UNUSED {
      assert Values(regs) + ({val} - {UNUSED}) == Values(regs);
    } else {
      assert {val} - {UNUSED} == {val};
      AppendOne(regs, val);
    }
  }

  lemma AppendOne(regs: seq<int>, val: int)
    requires Distinct(regs) && val !in regs
    ensures Values(regs + [val]) == Values(regs) + {val} && Distinct(regs + [val])
    ensures |Values(regs) + {val}| == |Values(regs)| + 1
  {
  }

  function Taken(c: Call): set<int> {
    if c.RlPower? then {Quantise(c.amp)} - {UNUSED} else {}
  }

  lemma AskedFirst(calls: seq<Call>, have: set<int>, k: nat)
    requires calls != [] && 1 <= k <= |calls|
    ensures have + Asked(calls[..k]) == have + Taken(calls[0]) + Asked(calls[1..][..k - 1])
  {
    assert calls[..k][1..] == calls[1..][..k - 1];
    hide Quantise;
  }

  /** One call, and then the others. */
  lemma FitsFirst(calls: seq<Call>, have: set<int>)
    requires calls != []
    ensures Fits(calls, have) <==>
            Fits(calls[1..], have + Taken(calls[0])) && (AsksUnused(calls[0]) ==> |have| < POWER_REGISTERS)
  {
    hide Asked, Quantise;
    var rest, more := calls[1..], have + Taken(calls[0]);
    AskedFirst(calls, have, |calls|);
    assert calls[..|calls|] == calls && rest[..|rest|] == rest;
    forall k | 0 <= k < |rest|
      ensures have + Asked(calls[..k + 1]) == more + Asked(rest[..k]) && rest[k] == calls[k + 1]
    {
      AskedFirst(calls, have, k + 1);
    }
    NoneAsked(have);
    assert calls[..0] == [];
    if Fits(calls, have) {
      forall k | 0 <= k < |rest| && AsksUnused(rest[k]) ensures |more + Asked(rest[..k])| < POWER_REGISTERS {
        assert AsksUnused(calls[k + 1]);
      }
    }
    if Fits(rest, more) && (AsksUnused(calls[0]) ==> |have| < POWER_REGISTERS) {
      forall k | 0 <= k < |calls| && AsksUnused(calls[k]) ensures |have + Asked(calls[..k])| < POWER_REGISTERS {
        if k > 0 {
          assert AsksUnused(rest[k - 1]) && have + Asked(calls[..k - 1 + 1]) == more + Asked(rest[..k - 1]);
        }
      }
    }
  }

  lemma NoneAsked(have: set<int>)
    ensures have + Asked([]) == have
  {
  }

  /** What does not fit now does not fit with more. */
  lemma NeverFits(calls: seq<Call>, have: set<int>)
    requires |have| > POWER_REGISTERS
    ensures !Fits(calls, have)
  {
    SubsetSize(have, have + Asked(calls));
  }

  /** The dry pass, from any register table: it keeps the registers, distinct, and adds exactly
      the values asked for; it fails exactly when they do not fit. */
  lemma {:induction false} DryPassRegisters(calls: seq<Call>, regs: seq<int>)
    requires |regs| <= POWER_REGISTERS && Distinct(regs) && UNUSED !in regs
    ensures Holds(DryPowers(calls, regs), regs, Asked(calls), Fits(calls, Values(regs)))
  {
    hide Quantise, Distinct, Values, AddPower, Fits, Asked;
    if calls == [] {
      NothingAsked(regs);
    } else {
      var c := calls[0];
      FitsFirst(calls, Values(regs));
      AskedFirst(calls, Values(regs), |calls|);
      assert calls[..|calls|] == calls && calls[1..][..|calls| - 1] == calls[1..];
      if c.RlPower? {
        AddOne(regs, Quantise(c.amp));
        match AddPower(regs, Quantise(c.amp)) {
          case Some(more) => DryPassRegisters(calls[1..], more);
          case None =>
            if Quantise(c.amp) != UNUSED { NeverFits(calls[1..], Values(regs) + Taken(c)); }
        }
      } else {
        DryPassRegisters(calls[1..], regs);
        assert Values(regs) + {} == Values(regs);
      }
    }
  }

  lemma NothingAsked(regs: seq<int>)
    requires |regs| <= POWER_REGISTERS && Distinct(regs) && UNUSED !in regs
    ensures Holds(Some(regs), regs, Asked([]), Fits([], Values(regs)))
  {
    DistinctSize(regs);
    NoneAsked(Values(regs));
  }

  lemma SubsetSize(a: set<int>, b: set<int>)
    requires a <= b
    ensures |a| <= |b|
  {
    assert b == a + (b - a) && a * (b - a) == {};
  }

  /** The source accepts the sequence if and only if full power, the transmitter power and the sequence's powers
      are at most four values, -1 not counted, and -1 is not asked for after the fourth; then the registers
      are distinct, register 0 is full power, and every POWER line but those of -1 names a register that holds
      the value asked for. */
  lemma PowersProgrammed(calls: seq<Call>, tpwrf: real)
    ensures var own := {FULL_POWER} + ({Quantise(tpwrf)} - {UNUSED});
            && (Registers(calls, tpwrf).Some? <==> Fits(calls, own))
            && (Registers(calls, tpwrf).Some? ==>
                  var regs := Registers(calls, tpwrf).value;
                  && |regs| > 0 && regs[0] == FULL_POWER && Distinct(regs) && Values(regs) == own + Asked(calls)
                  && forall val :: val in own + Asked(calls) ==>
                       RegisterOf(regs, val) < |regs| && regs[RegisterOf(regs, val)] == val)
  {
    hide Quantise, RegisterOf, Fits, Asked;
    var all, own := [RlPower(tpwrf)] + calls, {FULL_POWER} + ({Quantise(tpwrf)} - {UNUSED});
    assert all[1..] == calls && all[..|all|] == all && calls[..|calls|] == calls;
    assert Values([FULL_POWER]) == {FULL_POWER};
    DryPassRegisters(all, [FULL_POWER]);
    FitsFirst(all, {FULL_POWER});
    AskedFirst(all, {FULL_POWER}, |all|);
    if Registers(calls, tpwrf).Some? {
      var regs := Registers(calls, tpwrf).value;
      assert [FULL_POWER] <= regs && regs[0] == FULL_POWER;
      forall val | val in own + Asked(calls)
        ensures RegisterOf(regs, val) < |regs| && regs[RegisterOf(regs, val)] == val
      {
        RegisterFound(regs, val);
      }
    }
  }

  /** Without such an amplitude, just when the powers are at most four. */
  lemma NoMinusOneFits(calls: seq<Call>, have: set<int>)
    requires UNUSED !in Requested(calls)
    ensures Fits(calls, have) <==> |have + Requested(calls)| <= POWER_REGISTERS
  {
    assert Asked(calls) == Requested(calls);
    hide Quantise;
    forall k | 0 <= k < |calls| ensures !AsksUnused(calls[k]) {
      if calls[k].RlPower? { RequestedAt(calls, k); }
    }
  }

  lemma {:induction false} RequestedAt(calls: seq<Call>, k: nat)
    requires k < |calls| && calls[k].RlPower?
    ensures Quantise(calls[k].amp) in Requested(calls)
  {
    hide Quantise;
    if k > 0 { RequestedAt(calls[1..], k - 1); }
  }

  lemma {:induction false} NeverUnused(calls: seq<Call>, regs: seq<int>)
    requires |regs| <= POWER_REGISTERS && UNUSED !in regs && DryPowers(calls, regs).Some?
    ensures UNUSED !in DryPowers(calls, regs).value
  {
    hide Quantise;
    if calls != [] {
      if calls[0].RlPower? {
        NeverUnused(calls[1..], AddPower(regs, Quantise(calls[0].amp)).value);
      } else {
        NeverUnused(calls[1..], regs);
      }
    }
  }

  /** An amplitude that quantises to -1 is taken for an unused register: it is never programmed,
      and its POWER line names register 0, full power. */
  lemma MinusOneIsFullPower(calls: seq<Call>, tpwrf: real, amp: real)
    requires Registers(calls, tpwrf).Some? && Quantise(amp) == UNUSED
    ensures RegisterOf(Registers(calls, tpwrf).value, Quantise(amp)) == 0
    ensures UNUSED !in Registers(calls, tpwrf).value
  {
    NeverUnused([RlPower(tpwrf)] + calls, [FULL_POWER]);
  }
}
