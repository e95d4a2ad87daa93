/** arrayPS and elemindex of src/bpsg/arrayfuncs.c: nested loops over the arrayed parameters, and
    the arithmetic that finds a loop's value from the number of the FID. */
module ArrayLoops {
  import opened Arithmetic

  function Product(sizes: seq<nat>): nat {
    if sizes == [] then 1 else sizes[0] * Product(sizes[1..])
  }

  // ----- the order of the FIDs ----------------------------------------------------------------------------

  /** v in front of each row. */
  function Before(v: nat, rows: seq<seq<nat>>): (r: seq<seq<nat>>)
    ensures |r| == |rows|
  {
    seq(|rows|, k requires 0 <= k < |rows| => [v] + rows[k])
  }

  /** Every combination of values, the last loop fastest. */
  function Rows(sizes: seq<nat>): seq<seq<nat>>
    decreases |sizes|, 1, 0
  {
    if sizes == [] then [[]] else RowsFrom(sizes, 1)
  }

  function RowsFrom(sizes: seq<nat>, v: nat): seq<seq<nat>>
    requires sizes != [] && 1 <= v <= sizes[0] + 1
    decreases |sizes|, 0, sizes[0] + 1 - v
  {
    if v == sizes[0] + 1 then [] else Before(v, Rows(sizes[1..])) + RowsFrom(sizes, v + 1)
  }

  datatype Fid = Fid(ix: nat, nth2D: nat, values: seq<nat>)

  function First(values: seq<nat>): nat {
    if values == [] then 0 else values[0]
  }

  /** The FIDs of the rows under the values `prefix`, from number start + 1 on. */
  function Fids(prefix: seq<nat>, rows: seq<seq<nat>>, start: nat, base: nat): seq<Fid> {
    seq(|rows|, k requires 0 <= k < |rows| =>
      Fid(start + k + 1, base + First(prefix + rows[k]), prefix + rows[k]))
  }

  lemma FidsBoth(prefix: seq<nat>, a: seq<seq<nat>>, b: seq<seq<nat>>, start: nat, base: nat)
    ensures Fids(prefix, a + b, start, base) == Fids(prefix, a, start, base) + Fids(prefix, b, start + |a|, base)
  {
  }

  lemma FidsBefore(prefix: seq<nat>, v: nat, rows: seq<seq<nat>>, start: nat, base: nat)
    ensures Fids(prefix, Before(v, rows), start, base) == Fids(prefix + [v], rows, start, base)
  {
    forall k | 0 <= k < |rows| ensures prefix + ([v] + rows[k]) == prefix + [v] + rows[k] {
    }
  }

  // ----- the loops ------------------------------------------------------------------------------------------

  class Arrays {
    const sizes: seq<nat>
    var ix: nat
    var nth2D: nat
    var values: seq<nat>
    var log: seq<Fid>

    constructor (s: seq<nat>)
      requires s != []
      ensures sizes == s && ix == 0 && nth2D == 0 && |values| == |s| && log == []
    {
      sizes, ix, nth2D, values, log := s, 0, 0, seq(|s|, _ => 0), [];
    }

    ghost predicate Ready(index: nat, base: nat)
      reads this
    {
      && index < |sizes| && |values| == |sizes|
      && nth2D == base + if index == 0 then 0 else values[0]
    }

    /** The FID of the current values. */
    method Emit(ghost prefix: seq<nat>, ghost base: nat)
      requires values == prefix && prefix != [] && nth2D == base + prefix[0]
      modifies this`ix, this`log
      ensures ix == old(ix) + |Rows([])|
      ensures log == old(log) + Fids(prefix, Rows([]), old(ix), base)
    {
      ix := ix + 1;
      log := log + [Fid(ix, nth2D, values)];
      assert prefix + [] == prefix;
    }

    /** The loops from `index` on; base is what nth2D was before the first loop began. */
    method ArrayPS(index: nat, numarrays: nat, ghost base: nat)
      requires Ready(index, base) && index + numarrays == |sizes| && numarrays >= 1
      modifies this
      ensures |values| == |sizes| && values[..index] == old(values[..index])
      ensures nth2D == if index == 0 then base + sizes[0] else old(nth2D)
      ensures log == old(log) + Fids(old(values[..index]), Rows(sizes[index..]), old(ix), base)
      ensures ix == old(ix) + |Rows(sizes[index..])|
      decreases numarrays, 1
    {
      hide Rows, RowsFrom, Fids;
      ghost var prefix, all := values[..index], sizes[index..];
      RowsAre(all, prefix, base);
      for v := 1 to sizes[index] + 1
        invariant |values| == |sizes| && values[..index] == prefix
        invariant nth2D == if index == 0 then base + v - 1 else base + values[0]
        invariant log + Fids(prefix, RowsFrom(all, v), ix, base) == old(log) + Fids(prefix, Rows(all), old(ix), base)
        invariant ix + |RowsFrom(all, v)| == old(ix) + |Rows(all)|
      {
        RowsNext(prefix, all, v, ix, base);
        ghost var before, start := log, ix;
        Value(index, numarrays, v, prefix, base);
        RegroupFids(before, Fids(prefix + [v], Rows(all[1..]), start, base),
                    Fids(prefix, RowsFrom(all, v + 1), ix, base));
      }
    }

    /** One value of the loop `index`, and the loops inside it. */
    method Value(index: nat, numarrays: nat, v: nat, ghost prefix: seq<nat>, ghost base: nat)
      requires index < |sizes| == |values| && index + numarrays == |sizes| && numarrays >= 1
      requires values[..index] == prefix && nth2D == base + (if index == 0 then v - 1 else values[0]) && v >= 1
      modifies this
      ensures |values| == |sizes| && values[..index] == prefix
      ensures nth2D == base + if index == 0 then v else values[0]
      ensures log == old(log) + Fids(prefix + [v], Rows(sizes[index..][1..]), old(ix), base)
      ensures ix == old(ix) + |Rows(sizes[index..][1..])|
      decreases numarrays, 0
    {
      hide Rows, Fids;
      if index == 0 {
        nth2D := nth2D + 1;
      }
      values := values[index := v];
      assert values[..index + 1] == prefix + [v];
      assert sizes[index..][1..] == sizes[index + 1..];
      if numarrays > 1 {
        ArrayPS(index + 1, numarrays - 1, base);
        assert values[..index + 1][..index] == values[..index];
      } else {
        assert sizes[index + 1..] == [] && values == prefix + [v];
        Emit(prefix + [v], base);
      }
    }
  }

  lemma FidsNone(prefix: seq<nat>, base: nat)
    ensures forall start :: Fids(prefix, [], start, base) == []
  {
  }

  lemma RegroupFids(a: seq<Fid>, b: seq<Fid>, c: seq<Fid>)
    ensures a + (b + c) == a + b + c
  {
  }

  lemma RowsAre(sizes: seq<nat>, prefix: seq<nat>, base: nat)
    requires sizes != []
    ensures Rows(sizes) == RowsFrom(sizes, 1) && RowsFrom(sizes, sizes[0] + 1) == []
    ensures forall start :: Fids(prefix, [], start, base) == []
  {
    FidsNone(prefix, base);
  }

  lemma RowsNext(prefix: seq<nat>, sizes: seq<nat>, v: nat, start: nat, base: nat)
    requires sizes != [] && 1 <= v <= sizes[0]
    ensures |RowsFrom(sizes, v)| == |Rows(sizes[1..])| + |RowsFrom(sizes, v + 1)|
    ensures Fids(prefix, RowsFrom(sizes, v), start, base) ==
            Fids(prefix + [v], Rows(sizes[1..]), start, base)
            + Fids(prefix, RowsFrom(sizes, v + 1), start + |Rows(sizes[1..])|, base)
  {
    hide Fids, Rows, Before;
    FidsBoth(prefix, Before(v, Rows(sizes[1..])), RowsFrom(sizes, v + 1), start, base);
    FidsBefore(prefix, v, Rows(sizes[1..]), start, base);
  }

  // ----- the number of FIDs, and the value of each loop ---------------------------------------------------------

  lemma {:induction false} RowCount(sizes: seq<nat>)
    ensures |Rows(sizes)| == Product(sizes)
    decreases |sizes|, 1, 0
  {
    if sizes != [] { RowsFromCount(sizes, 1); }
  }

  lemma {:induction false} RowsFromCount(sizes: seq<nat>, v: nat)
    requires sizes != [] && 1 <= v <= sizes[0] + 1
    ensures |RowsFrom(sizes, v)| == (sizes[0] + 1 - v) * Product(sizes[1..])
    decreases |sizes|, 0, sizes[0] + 1 - v
  {
    if v <= sizes[0] {
      RowCount(sizes[1..]);
      RowsFromCount(sizes, v + 1);
      Distribute(sizes[0] - v, 1, Product(sizes[1..]));
    }
  }

  /** The mixed-radix digits of f, each from 1 up, the last loop the fastest. */
  function Digits(sizes: seq<nat>, f: nat): seq<nat>
    requires f < Product(sizes)
    decreases |sizes|
  {
    if sizes == [] then []
    else
      var p := Product(sizes[1..]);
      assert p > 0;
      assert f % p < p;
      [f / p + 1] + Digits(sizes[1..], f % p)
  }

  lemma {:induction false} RowsFromAt(sizes: seq<nat>, v: nat, g: nat)
    requires sizes != [] && 1 <= v <= sizes[0] + 1 && g < |RowsFrom(sizes, v)|
    ensures var p := Product(sizes[1..]);
            p > 0 && g % p < |Rows(sizes[1..])| && RowsFrom(sizes, v)[g] == [v + g / p] + Rows(sizes[1..])[g % p]
    decreases sizes[0] + 1 - v
  {
    hide Rows, Product;
    var p := Product(sizes[1..]);
    RowCount(sizes[1..]);
    RowsFromCount(sizes, v);
    assert p > 0 && v <= sizes[0];
    if g < p {
      LessThanDivisor(g, p);
    } else {
      RowsFromAt(sizes, v + 1, g - p);
      OneDivisorLess(g, p);
    }
  }

  /** FID number f + 1 has the digits of f. */
  lemma {:induction false} RowIsDigits(sizes: seq<nat>, f: nat)
    requires f < Product(sizes)
    ensures f < |Rows(sizes)| && Rows(sizes)[f] == Digits(sizes, f)
    decreases |sizes|
  {
    RowCount(sizes);
    if sizes != [] {
      RowsFromAt(sizes, 1, f);
      RowIsDigits(sizes[1..], f % Product(sizes[1..]));
    }
  }

  // ----- elemindex --------------------------------------------------------------------------------------------------

  predicate Positive(sizes: seq<nat>) {
    forall i :: 0 <= i < |sizes| ==> sizes[i] > 0
  }

  lemma {:induction false} ProductPositive(sizes: seq<nat>)
    requires Positive(sizes)
    ensures Product(sizes) > 0
  {
    if sizes != [] { ProductPositive(sizes[1..]); }
  }

  /** The value that element e (from 0) has in FID f (from 0). */
  function ValueOf(sizes: seq<nat>, f: nat, e: nat): nat
    requires Positive(sizes) && e < |sizes|
  {
    ProductPositive(sizes[e + 1..]);
    f / Product(sizes[e + 1..]) % sizes[e] + 1
  }

  method ElemIndex(sizes: seq<nat>, fid: nat, elem: int) returns (index: int)
    requires Positive(sizes) && fid >= 1
    ensures 1 <= elem <= |sizes| ==> index == ValueOf(sizes, fid - 1, elem - 1)
    ensures !(1 <= elem <= |sizes|) ==> index == -1
  {
    if elem < 1 || elem > |sizes| {
      return -1;
    }
    var priorIter := fid - 1;
    var i := |sizes|;
    index := 0;
    assert sizes[|sizes|..] == [];
    while elem <= i
      invariant elem - 1 <= i <= |sizes|
      invariant Product(sizes[i..]) > 0 && priorIter == (fid - 1) / Product(sizes[i..])
      invariant i < |sizes| ==> index == ValueOf(sizes, fid - 1, i)
    {
      var nvalues := sizes[i - 1];
      ProductPositive(sizes[i..]);
      ProductPositive(sizes[i - 1..]);
      DivTwice(fid - 1, Product(sizes[i..]), nvalues);
      assert sizes[i - 1..][1..] == sizes[i..];
      index := priorIter % nvalues + 1;
      priorIter := priorIter / nvalues;
      i := i - 1;
    }
  }

  lemma {:induction false} ProductSplit(sizes: seq<nat>, k: nat)
    requires k <= |sizes|
    ensures Product(sizes) == Product(sizes[..k]) * Product(sizes[k..])
  {
    if k > 0 {
      ProductSplit(sizes[1..], k - 1);
      assert sizes[1..][..k - 1] == sizes[..k][1..] && sizes[1..][k - 1..] == sizes[k..];
      Associate(sizes[0], Product(sizes[..k][1..]), Product(sizes[k..]));
    } else {
      assert sizes[0..] == sizes && sizes[..0] == [];
    }
  }

  /** elemindex finds the digit. */
  lemma {:induction false} DigitIsValue(sizes: seq<nat>, f: nat, e: nat)
    requires Positive(sizes) && e < |sizes| && f < Product(sizes)
    ensures |Digits(sizes, f)| == |sizes| && Digits(sizes, f)[e] == ValueOf(sizes, f, e)
    decreases |sizes|
  {
    var p := Product(sizes[1..]);
    ProductPositive(sizes[1..]);
    if e == 0 {
      Quotient(f, p, sizes[0]);
      if |sizes| > 1 { DigitIsValue(sizes[1..], f % p, 0); }
      ModUnique(f / p, 0, f / p, sizes[0]);
    } else {
      DigitIsValue(sizes[1..], f % p, e - 1);
      LowerValue(sizes, f, e);
    }
  }

  /** The value of a loop but the outermost does not depend on the outermost. */
  lemma LowerValue(sizes: seq<nat>, f: nat, e: nat)
    requires Positive(sizes) && 1 <= e < |sizes|
    ensures Product(sizes[1..]) > 0 && ValueOf(sizes[1..], f % Product(sizes[1..]), e - 1) == ValueOf(sizes, f, e)
  {
    hide Product;
    ProductPositive(sizes[1..]);
    ProductPositive(sizes[e + 1..]);
    ProductPositive(sizes[1..e]);
    ProductSplit(sizes[1..], e - 1);
    ProductFirst(sizes[e..]);
    assert sizes[1..][..e - 1] == sizes[1..e] && sizes[1..][e - 1..] == sizes[e..] && sizes[e..][1..] == sizes[e + 1..];
    assert sizes[1..][e..] == sizes[e + 1..];
    DropMultiple(f, Product(sizes[1..e]), sizes[e], Product(sizes[e + 1..]));
  }

  lemma ProductFirst(sizes: seq<nat>)
    requires sizes != []
    ensures Product(sizes) == sizes[0] * Product(sizes[1..])
  {
  }

  /** The experiment's FIDs are numbered from 1, as many as there are combinations; in each, every
      loop is on the value that elemindex gives it, and nth2D is the value of the outermost. */
  lemma FidsHaveElemIndex(sizes: seq<nat>, f: nat, e: nat)
    requires Positive(sizes) && e < |sizes| && f < |Rows(sizes)|
    ensures |Rows(sizes)| == Product(sizes)
    ensures var fid := Fids([], Rows(sizes), 0, 0)[f];
            && fid.ix == f + 1 && fid.nth2D == ValueOf(sizes, f, 0)
            && |fid.values| == |sizes| && fid.values[e] == ValueOf(sizes, f, e)
  {
    RowCount(sizes);
    RowIsDigits(sizes, f);
    DigitIsValue(sizes, f, e);
    DigitIsValue(sizes, f, 0);
    assert [] + Rows(sizes)[f] == Rows(sizes)[f];
  }

  /** The number of a combination: the outermost loop counts most. */
  function Number(sizes: seq<nat>, values: seq<nat>): int
    requires |values| == |sizes|
  {
    if sizes == [] then 0 else (values[0] - 1) * Product(sizes[1..]) + Number(sizes[1..], values[1..])
  }

  /** The values of FID f + 1 are in range, and make up f. */
  lemma {:induction false} RowsAreNumbered(sizes: seq<nat>, f: nat)
    requires f < |Rows(sizes)|
    ensures |Rows(sizes)[f]| == |sizes| && Number(sizes, Rows(sizes)[f]) == f
    ensures forall e :: 0 <= e < |sizes| ==> 1 <= Rows(sizes)[f][e] <= sizes[e]
    decreases |sizes|
  {
    RowCount(sizes);
    if sizes != [] {
      var p := Product(sizes[1..]);
      RowsFromAt(sizes, 1, f);
      RowsAreNumbered(sizes[1..], f % p);
      QuotientRemainder(f, p);
      Quotient(f, p, sizes[0]);
      hide Rows, Product;
      var row := Rows(sizes)[f];
      assert row[1..] == Rows(sizes[1..])[f % p];
    }
  }

  lemma BeforeRows(v: nat, x: nat, y: nat)
    ensures Before(v, [[]]) == [[v]] && Before(v, [[x], [y]]) == [[v, x], [v, y]]
  {
    assert [v] + [] == [v] && [v] + [x] == [v, x] && [v] + [y] == [v, y];
  }

  /** Two loops of two values. */
  lemma TwoByTwo()
    ensures Rows([2, 2]) == [[1, 1], [1, 2], [2, 1], [2, 2]]
  {
    assert Rows([]) == [[]] && [2][1..] == [] && [2, 2][1..] == [2];
    assert RowsFrom([2], 3) == [];
    BeforeRows(1, 1, 2);
    BeforeRows(2, 1, 2);
    assert RowsFrom([2], 2) == [[2]];
    assert Rows([2]) == [[1], [2]];
    assert RowsFrom([2, 2], 3) == [];
    assert RowsFrom([2, 2], 2) == [[2, 1], [2, 2]];
  }
}
