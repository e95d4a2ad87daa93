/** findWord and setup4D of src/bpsg/psg.c: an nD experiment as an arrayed one.  Sparse sampling is
    not modelled. */
module ArrayDims {
  import opened Common
  import opened ArrayText

  // ----- findWord -------------------------------------------------------------------------------------------

  predicate Occurs(key: string, s: string, i: nat) {
    i + |key| <= |s| && s[i..i + |key|] == key
  }

  lemma OccursAt(key: string, s: string, i: nat, k: nat)
    requires k < |key|
    ensures Occurs(key, s, i) ==> i + k < |s| && s[i + k] == key[k]
  {
    if Occurs(key, s, i) { assert s[i..i + |key|][k] == s[i + k]; }
  }

  /** An occurrence that a comma, a closing parenthesis or the end of the string follows. */
  predicate WordEnd(key: string, s: string, i: nat) {
    Occurs(key, s, i) && (i + |key| == |s| || s[i + |key|] == ',' || s[i + |key|] == ')')
  }

  ghost predicate Found(key: string, s: string) {
    exists i: nat :: WordEnd(key, s, i)
  }

  /** strstr from position i on: the next occurrence, or |s| + 1. */
  method Strstr(s: string, key: string, i: nat) returns (p: nat)
    requires i <= |s|
    ensures i <= p && (p <= |s| ==> Occurs(key, s, p))
    ensures forall j: nat :: i <= j < p ==> !Occurs(key, s, j)
    ensures p <= |s| || p == |s| + 1
  {
    p := i;
    while p <= |s|
      invariant i <= p <= |s| + 1
      invariant forall j: nat :: i <= j < p ==> !Occurs(key, s, j)
    {
      if p + |key| <= |s| && s[p..p + |key|] == key {
        return;
      }
      p := p + 1;
    }
  }

  /** No occurrence of the key begins inside another. */
  predicate Borderless(key: string) {
    key != "" && forall k :: 0 < k < |key| ==> key[k] != key[0]
  }

  lemma NoOverlap(key: string, s: string, i: nat, j: nat)
    requires Borderless(key) && Occurs(key, s, i) && i < j < i + |key|
    ensures !Occurs(key, s, j)
  {
    OccursAt(key, s, i, j - i);
    OccursAt(key, s, j, 0);
  }

  method FindWord(key: string, s: string) returns (found: bool)
    requires Borderless(key)
    ensures found <==> Found(key, s)
  {
    var ptr := Strstr(s, key, 0);
    while ptr <= |s|
      invariant ptr <= |s| ==> Occurs(key, s, ptr)
      invariant forall j: nat :: j < ptr ==> !WordEnd(key, s, j)
      invariant ptr <= |s| + 1
      decreases |s| + 1 - ptr
    {
      var next := ptr + |key|;
      if next == |s| || s[next] == ',' || s[next] == ')' {
        assert WordEnd(key, s, ptr);
        return true;
      }
      forall j: nat | ptr < j < next ensures !Occurs(key, s, j) {
        NoOverlap(key, s, ptr, j);
      }
      ptr := Strstr(s, key, next);
    }
    found := false;
  }

  // ----- what findWord finds in an array string ---------------------------------------------------------------

  predicate EndsIn(n: string, key: string) {
    |key| <= |n| && n[|n| - |key|..] == key
  }

  ghost predicate NamedIn(key: string, ns: seq<string>) {
    exists i :: 0 <= i < |ns| && EndsIn(ns[i], key)
  }

  ghost predicate NamedInArray(key: string, es: seq<Elem>) {
    exists i :: 0 <= i < |es| && NamedIn(key, NamesOf(es[i]))
  }

  /** Past a character that no name has. */
  lemma FoundAfter(key: string, c: char, rest: string)
    requires Word(key) && key != "" && !NameChar(c)
    ensures Found(key, [c] + rest) <==> Found(key, rest)
  {
    var s := [c] + rest;
    if Found(key, s) {
      var i: nat :| WordEnd(key, s, i);
      OccursAt(key, s, i, 0);
      assert NameChar(key[0]) && i > 0;
      FoundFurther(key, [c], rest, i - 1);
    }
    if Found(key, rest) {
      var i: nat :| WordEnd(key, rest, i);
      FoundFurther(key, [c], rest, i);
    }
  }

  /** What stands in front moves every find. */
  lemma FoundFurther(key: string, n: string, rest: string, i: nat)
    ensures WordEnd(key, n + rest, |n| + i) <==> WordEnd(key, rest, i)
  {
    var s := n + rest;
    if i + |key| <= |rest| {
      assert s[|n| + i..|n| + i + |key|] == rest[i..i + |key|];
    }
  }

  /** Past a name: it counts when it ends in the key. */
  lemma FoundPast(key: string, n: string, rest: string)
    requires Word(key) && key != "" && Word(n) && (rest == "" || rest[0] == ',' || rest[0] == ')')
    ensures Found(key, n + rest) <==> EndsIn(n, key) || Found(key, rest)
  {
    hide WordEnd, EndsIn;
    if Found(key, n + rest) {
      var i: nat :| WordEnd(key, n + rest, i);
      FoundWhere(key, n, rest, i);
    }
    if EndsIn(n, key) {
      FoundAtEnd(key, n, rest);
    }
    if Found(key, rest) {
      var i: nat :| WordEnd(key, rest, i);
      FoundFurther(key, n, rest, i);
    }
  }

  lemma FoundAtEnd(key: string, n: string, rest: string)
    requires EndsIn(n, key) && (rest == "" || rest[0] == ',' || rest[0] == ')')
    ensures Found(key, n + rest)
  {
    var s, i := n + rest, |n| - |key|;
    assert s[i..i + |key|] == n[i..];
    assert WordEnd(key, s, i);
  }

  lemma FoundWhere(key: string, n: string, rest: string, i: nat)
    requires Word(key) && key != "" && Word(n) && (rest == "" || rest[0] == ',' || rest[0] == ')')
    requires WordEnd(key, n + rest, i)
    ensures EndsIn(n, key) || Found(key, rest)
  {
    var s := n + rest;
    if i >= |n| {
      FoundFurther(key, n, rest, i - |n|);
    } else if i + |key| > |n| {
      OccursAt(key, s, i, |n| - i);
      assert false;
    } else {
      assert i + |key| == |s| || !NameChar(s[i + |key|]);
      assert forall k :: 0 <= k < |n| ==> NameChar(s[k]);
      assert i + |key| == |n|;
      assert n[i..] == s[i..i + |key|];
    }
  }

  lemma {:induction false} FoundInNames(key: string, ns: seq<string>, rest: string)
    requires Word(key) && key != "" && GoodNames(ns)
    ensures Found(key, Join(ns) + (")" + rest)) <==> NamedIn(key, ns) || Found(key, rest)
    decreases |ns|
  {
    hide Found, EndsIn;
    NamedFirst(key, ns);
    if |ns| == 1 {
      FoundPast(key, ns[0], ")" + rest);
      FoundAfter(key, ')', rest);
    } else {
      var more := Join(ns[1..]) + (")" + rest);
      assert Join(ns) + (")" + rest) == ns[0] + ("," + more);
      FoundPast(key, ns[0], "," + more);
      FoundAfter(key, ',', more);
      FoundInNames(key, ns[1..], rest);
    }
  }

  lemma NamedFirst(key: string, ns: seq<string>)
    requires ns != []
    ensures NamedIn(key, ns) <==> EndsIn(ns[0], key) || NamedIn(key, ns[1..])
  {
    if NamedIn(key, ns[1..]) {
      var i :| 0 <= i < |ns| - 1 && EndsIn(ns[1..][i], key);
      assert EndsIn(ns[i + 1], key);
    }
    if NamedIn(key, ns) && !EndsIn(ns[0], key) {
      var i :| 0 <= i < |ns| && EndsIn(ns[i], key);
      assert EndsIn(ns[1..][i - 1], key);
    }
  }

  lemma NamedFirstElem(key: string, es: seq<Elem>)
    requires es != []
    ensures NamedInArray(key, es) <==> NamedIn(key, NamesOf(es[0])) || NamedInArray(key, es[1..])
  {
    hide NamedIn;
    if NamedInArray(key, es[1..]) {
      var i :| 0 <= i < |es| - 1 && NamedIn(key, NamesOf(es[1..][i]));
      assert NamedIn(key, NamesOf(es[i + 1]));
    }
    if NamedInArray(key, es) && !NamedIn(key, NamesOf(es[0])) {
      var i :| 0 <= i < |es| && NamedIn(key, NamesOf(es[i]));
      assert NamedIn(key, NamesOf(es[1..][i - 1]));
    }
  }

  lemma FoundInElem(key: string, e: Elem, rest: string)
    requires Word(key) && key != "" && GoodElem(e) && (rest == "" || rest[0] == ',')
    ensures Found(key, PrintElem(e) + rest) <==> NamedIn(key, NamesOf(e)) || Found(key, rest)
  {
    hide Found, EndsIn, Join;
    match e
    case Single(name) =>
      NamedFirst(key, [name]);
      FoundPast(key, name, rest);
    case Diagonal(names) =>
      assert PrintElem(e) + rest == "(" + (Join(names) + (")" + rest));
      FoundAfter(key, '(', Join(names) + (")" + rest));
      FoundInNames(key, names, rest);
  }

  lemma NotFoundInNothing(key: string)
    requires key != ""
    ensures !Found(key, "")
  {
  }

  lemma {:induction false} FoundInPrinted(key: string, es: seq<Elem>, rest: string)
    requires Word(key) && key != "" && Good(es) && es != [] && (rest == "" || rest == ",")
    ensures Found(key, Print(es) + rest) <==> NamedInArray(key, es)
    decreases |es|
  {
    hide Found, NamedIn, NamedInArray, PrintElem;
    NotFoundInNothing(key);
    FoundAfter(key, ',', "");
    assert "," + "" == ",";
    NamedFirstElem(key, es);
    if |es| == 1 {
      FoundInElem(key, es[0], rest);
      NotNamedInNothing(key);
      assert es[1..] == [];
    } else {
      var more := Print(es[1..]) + rest;
      assert Print(es) + rest == PrintElem(es[0]) + ("," + more);
      FoundInElem(key, es[0], "," + more);
      FoundAfter(key, ',', more);
      FoundInPrinted(key, es[1..], rest);
    }
  }

  lemma NotNamedInNothing(key: string)
    ensures !NamedInArray(key, [])
  {
  }

  /** On an array string, the key is found just when some parameter's name ends in it. */
  lemma FoundExactly(key: string, s: string, es: seq<Elem>)
    requires Word(key) && key != "" && Prints(s, es)
    ensures Found(key, s) <==> NamedInArray(key, es)
  {
    hide Found, NamedInArray, Print;
    if es == [] {
      NothingPrinted();
      NotFoundInNothing(key);
      NotNamedInNothing(key);
    } else {
      FoundInPrinted(key, es, "");
      FoundInPrinted(key, es, ",");
      assert Print(es) + "" == Print(es);
    }
  }

  lemma NothingPrinted()
    ensures Print([]) == ""
  {
  }

  // ----- setup4D --------------------------------------------------------------------------------------------------

  /** The evolution delay is wanted as a loop of its own. */
  ghost predicate Wanted(key: string, n: real, arraystr: string) {
    n > 1.5 && !Found(key, arraystr)
  }

  ghost function Dim(key: string, n: real, arraystr: string): seq<Elem> {
    if Wanted(key, n, arraystr) then [Single(key)] else []
  }

  /** d4, d3 and d2, outermost first. */
  ghost function Dims(ni3: real, ni2: real, ni: real, arraystr: string): seq<Elem> {
    Dim("d4", ni3, arraystr) + Dim("d3", ni2, arraystr) + Dim("d2", ni, arraystr)
  }

  /** The delays the string already names, which were counted twice. */
  ghost function Counted(key: string, n: real, arraystr: string): int {
    if n > 1.5 && Found(key, arraystr) then 1 else 0
  }

  function Append(a: string, b: string): string {
    if a == "" then b else a + ("," + b)
  }

  function Multiple(k: int, x: real): real {
    x * k as real
  }

  /** The values of a delay: the first as it was, the others by repeated addition. */
  method DelayValues(init: real, inc: real, n: real) returns (vals: seq<real>)
    requires n > 1.5
    ensures |vals| == (n + 0.5).Floor
    ensures forall k :: 0 <= k < |vals| ==> vals[k] == init + Multiple(k, inc)
  {
    var num := (n - 1.0 + 0.5).Floor;
    var d := init;
    vals := [init];
    for i := 0 to num
      invariant |vals| == i + 1 && d == init + Multiple(i, inc)
      invariant forall k :: 0 <= k < |vals| ==> vals[k] == init + Multiple(k, inc)
    {
      d := d + inc;
      vals := vals + [d];
    }
  }

  /** Adds one dimension to the string, unless the array has it. */
  method AddDim(key: string, n: real, parsestr: string, arraystr: string, elCorr: int) returns (str: string, corr: int)
    requires Borderless(key)
    ensures str == if Wanted(key, n, arraystr) then Append(parsestr, key) else parsestr
    ensures corr == elCorr + Counted(key, n, arraystr)
  {
    str, corr := parsestr, elCorr;
    if n > 1.5 {
      var found := FindWord(key, arraystr);
      if !found {
        if str == "" {
          str := key;
        } else {
          str := str + ("," + key);
        }
      } else {
        corr := corr + 1;
      }
    }
  }

  /** A dimension added after those of str. */
  ghost function WithDim(str: string, key: string, n: real, arraystr: string): string {
    if Wanted(key, n, arraystr) then Append(str, key) else str
  }

  ghost function DimText(ni3: real, ni2: real, ni: real, arraystr: string): string {
    WithDim(WithDim(WithDim("", "d4", ni3, arraystr), "d3", ni2, arraystr), "d2", ni, arraystr)
  }

  ghost function SetupText(ni3: real, ni2: real, ni: real, arraystr: string): string {
    var dims := DimText(ni3, ni2, ni, arraystr);
    if arraystr == "" then dims else Append(dims, arraystr)
  }

  method Setup4D(ni3: real, ni2: real, ni: real, arraystr: string) returns (parsestr: string, elCorr: int)
    ensures elCorr == (if ni3 > 1.5 && Found("d4", arraystr) then 1 else 0)
                      + (if ni2 > 1.5 && Found("d3", arraystr) then 1 else 0)
                      + (if ni > 1.5 && Found("d2", arraystr) then 1 else 0)
    ensures parsestr == SetupText(ni3, ni2, ni, arraystr)
  {
    hide Found;
    parsestr, elCorr := "", 0;
    parsestr, elCorr := AddDim("d4", ni3, parsestr, arraystr, elCorr);
    parsestr, elCorr := AddDim("d3", ni2, parsestr, arraystr, elCorr);
    parsestr, elCorr := AddDim("d2", ni, parsestr, arraystr, elCorr);
    if arraystr != "" {
      if parsestr != "" {
        parsestr := parsestr + ("," + arraystr);
      } else {
        parsestr := arraystr;
      }
    }
  }

  // ----- what parse makes of the string -----------------------------------------------------------------------------

  /** str names the dimensions ds and nothing else. */
  ghost predicate DimString(str: string, ds: seq<Elem>) {
    Good(ds) && str == Print(ds) && (str == "" <==> ds == [])
  }

  lemma {:induction false} PrintAppend(ds: seq<Elem>, key: string)
    requires Good(ds) && ds != [] && Name(key)
    ensures Print(ds + [Single(key)]) == Print(ds) + ("," + key)
    decreases |ds|
  {
    var all := ds + [Single(key)];
    hide PrintElem;
    assert PrintElem(Single(key)) == key by { OneElem(key); }
    if |ds| == 1 {
      assert all[1..] == [Single(key)];
    } else {
      assert all[1..] == ds[1..] + [Single(key)];
      PrintAppend(ds[1..], key);
      assert PrintElem(ds[0]) + ("," + (Print(ds[1..]) + ("," + key))) == Print(ds) + ("," + key);
    }
  }

  lemma OneElem(key: string)
    requires Name(key)
    ensures PrintElem(Single(key)) == key
  {
  }

  lemma WithDimPrints(str: string, ds: seq<Elem>, key: string, n: real, arraystr: string)
    requires DimString(str, ds) && Name(key)
    ensures DimString(WithDim(str, key, n, arraystr), ds + Dim(key, n, arraystr))
  {
    if Wanted(key, n, arraystr) {
      if ds == [] {
        assert ds + [Single(key)] == [Single(key)];
      } else {
        hide Print;
        PrintAppend(ds, key);
      }
    } else {
      assert ds + [] == ds;
    }
  }

  lemma DimTextPrints(ni3: real, ni2: real, ni: real, arraystr: string)
    ensures DimString(DimText(ni3, ni2, ni, arraystr), Dims(ni3, ni2, ni, arraystr))
  {
    hide WithDim, Dim;
    var s4 := WithDim("", "d4", ni3, arraystr);
    var s3 := WithDim(s4, "d3", ni2, arraystr);
    WithDimPrints("", [], "d4", ni3, arraystr);
    assert [] + Dim("d4", ni3, arraystr) == Dim("d4", ni3, arraystr);
    WithDimPrints(s4, Dim("d4", ni3, arraystr), "d3", ni2, arraystr);
    WithDimPrints(s3, Dim("d4", ni3, arraystr) + Dim("d3", ni2, arraystr), "d2", ni, arraystr);
  }

  /** Loops in front of those of s. */
  lemma {:induction false} LoopsBefore(ds: seq<Elem>, s: string, es: seq<Elem>)
    requires Good(ds) && ds != [] && Parse(s) == Some(es)
    ensures Parse(Print(ds) + ("," + s)) == Some(ds + es)
    decreases |ds|
  {
    hide PrintElem, Parse, GoodElem;
    if |ds| == 1 {
      AfterComma(ds[0], s, es);
      assert ds == [ds[0]];
    } else {
      LoopsBefore(ds[1..], s, es);
      AfterComma(ds[0], Print(ds[1..]) + ("," + s), ds[1..] + es);
      Regroup(PrintElem(ds[0]), ",", Print(ds[1..]), "," + s);
      FirstAndRest(ds, es);
    }
  }

  lemma FirstAndRest(ds: seq<Elem>, es: seq<Elem>)
    requires ds != []
    ensures [ds[0]] + (ds[1..] + es) == ds + es
  {
  }

  /** The dimension as a loop, when no parameter's name ends in its own. */
  ghost function Missing(key: string, n: real, es: seq<Elem>): seq<Elem> {
    if n > 1.5 && !NamedInArray(key, es) then [Single(key)] else []
  }

  /** The string that setup4D builds is d4, d3 and d2, where wanted and not named, then the array. */
  lemma SetupParses(ni3: real, ni2: real, ni: real, arraystr: string, es: seq<Elem>)
    requires Parse(arraystr) == Some(es)
    ensures Parse(SetupText(ni3, ni2, ni, arraystr)) ==
              Some((if ni3 > 1.5 && !NamedInArray("d4", es) then [Single("d4")] else [])
                   + (if ni2 > 1.5 && !NamedInArray("d3", es) then [Single("d3")] else [])
                   + (if ni > 1.5 && !NamedInArray("d2", es) then [Single("d2")] else []) + es)
  {
    ParseExactly(arraystr, es);
    DimTextPrints(ni3, ni2, ni, arraystr);
    var ds := Dims(ni3, ni2, ni, arraystr);
    DimsAreMissing(ni3, ni2, ni, arraystr, es);
    hide Parse, DimText, Dims, Prints, Found, Missing, Print;
    if ds == [] {
      assert ds + es == es;
    } else if arraystr == "" {
      PrintParses(ds);
      NothingParses(es);
    } else {
      LoopsBefore(ds, arraystr, es);
    }
  }

  lemma DimsAreMissing(ni3: real, ni2: real, ni: real, arraystr: string, es: seq<Elem>)
    requires Prints(arraystr, es)
    ensures Dims(ni3, ni2, ni, arraystr) == Missing("d4", ni3, es) + Missing("d3", ni2, es) + Missing("d2", ni, es)
  {
    hide Prints, Dims, Missing, Found, NamedInArray;
    FoundExactly("d4", arraystr, es);
    FoundExactly("d3", arraystr, es);
    FoundExactly("d2", arraystr, es);
    DimsMissing(ni3, ni2, ni, arraystr, es);
  }

  lemma NothingParses(es: seq<Elem>)
    requires Parse("") == Some(es)
    ensures es == [] && forall ds: seq<Elem> :: ds + es == ds
  {
  }

  lemma DimsMissing(ni3: real, ni2: real, ni: real, arraystr: string, es: seq<Elem>)
    requires forall key :: key in {"d4", "d3", "d2"} ==> (Found(key, arraystr) <==> NamedInArray(key, es))
    ensures Dims(ni3, ni2, ni, arraystr) == Missing("d4", ni3, es) + Missing("d3", ni2, es) + Missing("d2", ni, es)
  {
    hide Found, NamedInArray;
  }
}
