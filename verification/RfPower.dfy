/** update_rfinfo of src/infoproc/infoqueu.c: the long-term RF power as a running sum over a circular
    buffer of thirty scaled samples, one every ten seconds, in unsigned 32-bit arithmetic. */
module RfPower {
  const CHANNELS := 4
  const SAMPLES := 30
  const WORD := 0x1_0000_0000
  const TEN_SECONDS := 10_000_000

  const TRIP_LEVELS: seq<int> := [
    1000, 1300, 1600, 2000, 2500, 3200, 4000, 5000,
    6300, 7900, 10000, 12600, 15900, 20000, 25100, 31600,
    39800, 50100, 63100, 79400, 100000, 126000, 159000, 200000,
    0, 0, 0, 0, 0, 0, 600, 800]

  const MAX_LIMIT := 200_000_000

  function Wrap(x: int): (r: int)
    ensures 0 <= r < WORD
  {
    x % WORD
  }

  /** Bits 6 to 10 of the monitor word. */
  function Knob(rf: int): (k: int)
    ensures 0 <= k < |TRIP_LEVELS|
  {
    rf / 64 % 32
  }

  /** In microwatts. */
  function Limit(rf: int): (l: int)
    ensures 0 <= l <= MAX_LIMIT
  {
    1000 * TRIP_LEVELS[Knob(rf)]
  }

  function Power(rf: int): (p: int)
    ensures 0 <= p <= 5 * MAX_LIMIT
  {
    Part(rf % 64, 5 * Limit(rf) / 63)
  }

  /** n sixty-thirds of a limit. */
  function Part(n: int, part: int): (p: int)
    requires 0 <= n < 64 && 0 <= part <= 5 * MAX_LIMIT / 63
    ensures 0 <= p <= 5 * MAX_LIMIT
  {
    PartBound(n, part);
    n * part
  }

  lemma PartBound(n: int, part: int)
    requires 0 <= n < 64 && 0 <= part <= 5 * MAX_LIMIT / 63
    ensures 0 <= n * part <= 5 * MAX_LIMIT
  {
    assert n * part <= 63 * part;
  }

  /** A sample's share of an average over thirty. */
  function Scaled(p: int): (s: int)
    requires 0 <= p <= 5 * MAX_LIMIT
    ensures 0 <= s <= 33_333_334 && -14 <= 30 * s - p <= 15
  {
    (p + 15) / 30
  }

  /** The knob says which power trips the amplifier in the long run, from 1 W to 200 W, or 0.6 or 0.8 W; the low
      six bits count sixty-thirds of five times that. */
  lemma PowerIs(rf: int)
    ensures var knob, n := rf / 64 % 32, rf % 64;
            && (knob == 0 ==> Power(rf) == n * 79_365) && (knob == 10 ==> Power(rf) == n * 793_650)
            && (knob == 20 ==> Power(rf) == n * 7_936_507) && (knob == 23 ==> Power(rf) == n * 15_873_015)
            && (24 <= knob < 30 ==> Power(rf) == 0)
            && (knob == 30 ==> Power(rf) == n * 47_619) && (knob == 31 ==> Power(rf) == n * 63_492)
  {
  }

  // ----- windows ------------------------------------------------------------------------------------------

  function Sum(xs: seq<int>): int {
    if xs == [] then 0 else xs[0] + Sum(xs[1..])
  }

  predicate Small(xs: seq<int>) {
    forall i :: 0 <= i < |xs| ==> 0 <= xs[i] <= 5 * MAX_LIMIT
  }

  function ScaledAll(xs: seq<int>): seq<int>
    requires Small(xs)
  {
    seq(|xs|, i requires 0 <= i < |xs| => Scaled(xs[i]))
  }

  /** The last thirty samples; before there were so many, zeros. */
  function Window(history: seq<int>): (w: seq<int>)
    ensures |w| == SAMPLES
  {
    var all := seq(SAMPLES, _ => 0) + history;
    all[|all| - SAMPLES..]
  }

  lemma WindowIs(history: seq<int>)
    ensures |history| >= 30 ==> Window(history) == history[|history| - 30..]
    ensures |history| <= 30 ==> Window(history) == seq(30 - |history|, _ => 0) + history
  {
  }

  lemma {:induction false} SumEnd(xs: seq<int>, v: int)
    ensures Sum(xs + [v]) == Sum(xs) + v
  {
    if xs == [] {
      assert [] + [v] == [v];
    } else {
      assert (xs + [v])[1..] == xs[1..] + [v];
      SumEnd(xs[1..], v);
    }
  }

  /** A window that moves on by one sample. */
  lemma SumShift(w: seq<int>, v: int)
    requires w != []
    ensures Sum(w[1..] + [v]) == Sum(w) - w[0] + v
  {
    SumEnd(w[1..], v);
  }

  lemma WindowShift(history: seq<int>, v: int)
    ensures Window(history + [v]) == Window(history)[1..] + [v]
  {
  }

  lemma {:induction false} SumBound(xs: seq<int>, most: int)
    requires forall i :: 0 <= i < |xs| ==> 0 <= xs[i] <= most
    ensures 0 <= Sum(xs) <= |xs| * most
  {
    if xs != [] { SumBound(xs[1..], most); }
  }

  lemma WindowSmall(history: seq<int>, most: int)
    requires most >= 0 && forall i :: 0 <= i < |history| ==> 0 <= history[i] <= most
    ensures forall i :: 0 <= i < SAMPLES ==> 0 <= Window(history)[i] <= most
  {
  }

  /** The running sum is that of the raw samples over thirty, to within 15. */
  lemma {:induction false} ScaledSum(xs: seq<int>)
    requires Small(xs)
    ensures -14 * |xs| <= 30 * Sum(ScaledAll(xs)) - Sum(xs) <= 15 * |xs|
  {
    if xs != [] {
      assert ScaledAll(xs)[1..] == ScaledAll(xs[1..]);
      ScaledSum(xs[1..]);
    }
  }

  lemma ScaledWindow(history: seq<int>)
    requires Small(history)
    ensures Small(Window(history)) && Window(ScaledAll(history)) == ScaledAll(Window(history))
  {
    WindowSmall(history, 5 * MAX_LIMIT);
  }

  /** However long the history: |30 * sum - raw| <= 450. */
  lemma LongPowerAccuracy(history: seq<int>)
    requires Small(history)
    ensures -450 <= 30 * Sum(Window(ScaledAll(history))) - Sum(Window(history)) <= 450
    ensures 0 <= Sum(Window(ScaledAll(history))) < WORD
  {
    ScaledWindow(history);
    ScaledSum(Window(history));
    SumBound(ScaledAll(Window(history)), 33_333_334);
  }

  // ----- the buffers --------------------------------------------------------------------------------------------

  /** A circular buffer read from its oldest entry. */
  function FromOldest(row: seq<int>, i: int): seq<int>
    requires |row| == SAMPLES && 0 <= i <= SAMPLES
  {
    row[i..] + row[..i]
  }

  /** Overwriting the oldest entry. */
  lemma Overwritten(row: seq<int>, i: int, v: int)
    requires |row| == SAMPLES && 0 <= i < SAMPLES
    ensures FromOldest(row, i)[0] == row[i]
    ensures FromOldest(row[i := v], i + 1) == FromOldest(row, i)[1..] + [v]
  {
  }

  lemma WrapsRound(row: seq<int>)
    requires |row| == SAMPLES
    ensures FromOldest(row, SAMPLES) == FromOldest(row, 0)
  {
  }

  /** A channel that has seen the samples h holds their window, from entry i on, and its sum. */
  ghost predicate Holds(h: seq<int>, row: seq<int>, sum: int, i: int)
    requires |row| == SAMPLES && 0 <= i <= SAMPLES
  {
    && Small(h)
    && FromOldest(row, i) == Window(ScaledAll(h))
    && sum == Sum(Window(ScaledAll(h)))
  }

  class Monitor {
    const cbuf: array2<int>
    const rsum: array<int>
    var ibuf: int
    var t: int
    ghost var history: seq<seq<int>>

    ghost predicate Shape() {
      cbuf.Length0 == CHANNELS && cbuf.Length1 == SAMPLES && rsum.Length == CHANNELS
    }

    ghost function RowOf(c: int): (r: seq<int>)
      requires Shape() && 0 <= c < CHANNELS
      reads cbuf
      ensures |r| == SAMPLES
    {
      seq(SAMPLES, j requires 0 <= j < SAMPLES && Shape() reads cbuf => cbuf[c, j])
    }

    ghost predicate ChannelOk(c: int, i: int)
      requires Shape() && 0 <= c < CHANNELS && |history| == CHANNELS && 0 <= i <= SAMPLES
      reads this`history, cbuf, rsum
    {
      Holds(history[c], RowOf(c), rsum[c], i)
    }

    ghost predicate Valid()
      reads this, cbuf, rsum
    {
      && Shape() && |history| == CHANNELS && 0 <= ibuf <= SAMPLES
      && forall c :: 0 <= c < CHANNELS ==> ChannelOk(c, ibuf)
    }

    constructor ()
      ensures Valid() && t == 0 && history == seq(CHANNELS, _ => []) && fresh(cbuf) && fresh(rsum)
    {
      cbuf := new int[CHANNELS, SAMPLES]((_, _) => 0);
      rsum := new int[CHANNELS](_ => 0);
      ibuf, t := 0, 0;
      history := seq(CHANNELS, _ => []);
      new;
      EmptyWindow();
      forall c | 0 <= c < CHANNELS ensures ChannelOk(c, 0) {
        assert FromOldest(RowOf(c), 0) == seq(SAMPLES, _ => 0);
      }
    }

    /** rsum[chan] += pwr2 - cbuf[chan][ibuf], and the sample takes the place of the oldest. */
    method Sample(chan: int, pwr: int)
      requires Shape() && 0 <= chan < CHANNELS && |history| == CHANNELS && 0 <= ibuf < SAMPLES
      requires ChannelOk(chan, ibuf) && 0 <= pwr <= 5 * MAX_LIMIT
      modifies this`history, cbuf, rsum
      ensures history == old(history)[chan := old(history[chan]) + [pwr]]
      ensures ChannelOk(chan, ibuf + 1)
      ensures forall c :: 0 <= c < CHANNELS && c != chan ==> rsum[c] == old(rsum[c]) && RowOf(c) == old(RowOf(c))
    {
      ghost var row, h, sum := RowOf(chan), history[chan], rsum[chan];
      var pwr2 := Scaled(pwr);
      Replaced(h, row, sum, ibuf, pwr);
      hide Holds, Wrap;
      rsum[chan] := Wrap(rsum[chan] + Wrap(pwr2 - cbuf[chan, ibuf]));
      cbuf[chan, ibuf] := pwr2;
      history := history[chan := h + [pwr]];
      assert RowOf(chan) == row[ibuf := pwr2];
      forall c | 0 <= c < CHANNELS && c != chan ensures RowOf(c) == old(RowOf(c)) {
      }
    }

    /** The channels before `chan` have their new sample. */
    ghost predicate Progress(c: int, chan: int, i: int, was: seq<seq<int>>, pwr: seq<int>)
      requires Shape() && 0 <= c < CHANNELS && |history| == CHANNELS == |was| == |pwr| && 0 <= i < SAMPLES
      reads this`history, cbuf, rsum
    {
      if c < chan then history[c] == was[c] + [pwr[c]] && ChannelOk(c, i + 1)
      else history[c] == was[c] && ChannelOk(c, i)
    }

    /** One pass for all four channels. */
    method Tick(pwr: seq<int>)
      requires Valid() && |pwr| == CHANNELS && Small(pwr)
      modifies this`history, this`ibuf, cbuf, rsum
      ensures Valid() && forall c :: 0 <= c < CHANNELS ==> history[c] == old(history[c]) + [pwr[c]]
    {
      if ibuf >= SAMPLES {
        forall c | 0 <= c < CHANNELS ensures ChannelOk(c, 0) {
          assert ChannelOk(c, ibuf);
          WrapsRound(RowOf(c));
        }
        ibuf := 0;
      }
      SampleAll(pwr);
      ghost var was, i := old(history), ibuf;
      ibuf := ibuf + 1;
      forall c | 0 <= c < CHANNELS ensures ChannelOk(c, ibuf) && history[c] == was[c] + [pwr[c]] {
        assert Progress(c, CHANNELS, i, was, pwr);
      }
    }

    method SampleAll(pwr: seq<int>)
      requires Valid() && ibuf < SAMPLES && |pwr| == CHANNELS && Small(pwr)
      modifies this`history, cbuf, rsum
      ensures Shape() && |history| == CHANNELS
      ensures forall c :: 0 <= c < CHANNELS ==> Progress(c, CHANNELS, ibuf, old(history), pwr)
    {
      hide Holds, Small;
      ghost var was := history;
      var chan := 0;
      while chan < CHANNELS
        invariant 0 <= chan <= CHANNELS && |history| == CHANNELS
        invariant forall c :: 0 <= c < CHANNELS ==> Progress(c, chan, ibuf, was, pwr)
      {
        PowerAt(pwr, chan);
        assert Progress(chan, chan, ibuf, was, pwr);
        label Before:
        Sample(chan, pwr[chan]);
        ghost var next := chan + 1;
        forall c | 0 <= c < CHANNELS ensures Progress(c, next, ibuf, was, pwr) {
          if c != chan {
            assert old@Before(Progress(c, chan, ibuf, was, pwr));
            assert RowOf(c) == old@Before(RowOf(c)) && rsum[c] == old@Before(rsum[c]);
          }
        }
        chan := chan + 1;
      }
    }

    /** update_rfinfo: a pass for every ten seconds since the last. */
    method UpdateRfInfo(stamp: int, rf: seq<int>)
      requires Valid() && |rf| == 4
      modifies this, cbuf, rsum
      ensures Valid()
      ensures var start := if old(t) == 0 then stamp else old(t);
              t == start + Passes(start, stamp) * TEN_SECONDS
              && forall c :: 0 <= c < CHANNELS ==>
                   history[c] == old(history[c]) + Repeated(Power(rf[c]), Passes(start, stamp))
      ensures var start := if old(t) == 0 then stamp else old(t);
              if stamp < start then t == start else stamp < t <= stamp + 10_000_000
      ensures forall c :: 0 <= c < 4 ==> 0 <= rsum[c] < 4_294_967_296
                                         && -450 <= 30 * rsum[c] - Sum(Window(history[c])) <= 450
    {
      if t == 0 {
        t := stamp;
      }
      ghost var start, n := t, 0;
      var pwr := seq(CHANNELS, c requires 0 <= c < CHANNELS => Power(rf[c]));
      while stamp >= t
        invariant Valid() && n >= 0 && t == start + n * TEN_SECONDS && n + Passes(t, stamp) == Passes(start, stamp)
        invariant t <= if stamp < start then start else stamp + TEN_SECONDS
        invariant forall c :: 0 <= c < CHANNELS ==> history[c] == old(history[c]) + Repeated(Power(rf[c]), n)
        decreases stamp - t
      {
        Tick(pwr);
        t := t + TEN_SECONDS;
        n := n + 1;
        assert forall c :: 0 <= c < CHANNELS ==>
                 Repeated(Power(rf[c]), n) == Repeated(Power(rf[c]), n - 1) + [Power(rf[c])];
      }
      forall c | 0 <= c < CHANNELS
        ensures 0 <= rsum[c] < WORD && -450 <= 30 * rsum[c] - Sum(Window(history[c])) <= 450
      {
        assert ChannelOk(c, ibuf);
        LongPowerAccuracy(history[c]);
      }
    }
  }

  function Passes(from: int, stamp: int): (n: nat)
    decreases stamp - from
  {
    if stamp < from then 0 else 1 + Passes(from + TEN_SECONDS, stamp)
  }

  function Repeated(x: int, n: nat): seq<int> {
    seq(n, _ => x)
  }

  lemma PowerAt(pwr: seq<int>, c: int)
    requires Small(pwr) && 0 <= c < |pwr|
    ensures 0 <= pwr[c] <= 5 * MAX_LIMIT
  {
  }

  lemma EmptyWindow()
    ensures Window(ScaledAll([])) == seq(SAMPLES, _ => 0) && Sum(seq(SAMPLES, _ => 0)) == 0
  {
    SumBound(seq(SAMPLES, _ => 0), 0);
  }

  /** A new sample keeps the running sum exact: neither the difference nor the total wraps for good. */
  lemma SampleFits(h: seq<int>, pwr: int)
    requires Small(h) && 0 <= pwr <= 5 * MAX_LIMIT
    ensures Small(h + [pwr])
    ensures var w, v := Window(ScaledAll(h)), Scaled(pwr);
            && Window(ScaledAll(h + [pwr])) == w[1..] + [v]
            && Wrap(Sum(w) + Wrap(v - w[0])) == Sum(w[1..] + [v]) == Sum(Window(ScaledAll(h + [pwr])))
  {
    var w, v := Window(ScaledAll(h)), Scaled(pwr);
    assert ScaledAll(h + [pwr]) == ScaledAll(h) + [v];
    WindowShift(ScaledAll(h), v);
    SumShift(w, v);
    LongPowerAccuracy(h + [pwr]);
    WrapTwice(Sum(w), v - w[0]);
  }

  lemma Replaced(h: seq<int>, row: seq<int>, sum: int, i: int, pwr: int)
    requires |row| == SAMPLES && 0 <= i < SAMPLES && Holds(h, row, sum, i) && 0 <= pwr <= 5 * MAX_LIMIT
    ensures Holds(h + [pwr], row[i := Scaled(pwr)], Wrap(sum + Wrap(Scaled(pwr) - row[i])), i + 1)
  {
    hide FromOldest, Window, Wrap, Sum, ScaledAll;
    SampleFits(h, pwr);
    Overwritten(row, i, Scaled(pwr));
  }

  lemma WrapTwice(x: int, d: int)
    requires 0 <= x + d < WORD
    ensures Wrap(x + Wrap(d)) == x + d
  {
  }
}
