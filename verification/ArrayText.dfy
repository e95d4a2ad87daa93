/** The parameter `array` of src/bpsg/arrayfuncs.c, a string such as sw,(pw,d1),dm: what it may
    look like, and what parse makes of it. */
module ArrayText {
  import opened Common

  /** One nested loop: a parameter, or several that step together. */
  datatype Elem = Single(name: string) | Diagonal(names: seq<string>)

  predicate Letter(c: char) {
    'a' <= c <= 'z' || 'A' <= c <= 'Z' || c == '_' || c == '$' || c == '#'
  }

  predicate NameChar(c: char) {
    Letter(c) || '0' <= c <= '9'
  }

  predicate Word(s: string) {
    forall i :: 0 <= i < |s| ==> NameChar(s[i])
  }

  predicate Name(s: string) {
    s != "" && Letter(s[0]) && Word(s)
  }

  predicate GoodNames(ns: seq<string>) {
    ns != [] && forall i :: 0 <= i < |ns| ==> Name(ns[i])
  }

  predicate GoodElem(e: Elem) {
    match e
    case Single(name) => Name(name)
    case Diagonal(names) => GoodNames(names)
  }

  predicate Good(es: seq<Elem>) {
    forall i :: 0 <= i < |es| ==> GoodElem(es[i])
  }

  function NamesOf(e: Elem): seq<string> {
    match e
    case Single(name) => [name]
    case Diagonal(names) => names
  }

  // ----- printing ---------------------------------------------------------------------------------------

  function PrintElem(e: Elem): string
    requires GoodElem(e)
  {
    match e
    case Single(name) => name
    case Diagonal(names) => "(" + (Join(names) + ")")
  }

  function Print(es: seq<Elem>): string
    requires Good(es)
  {
    if es == [] then ""
    else if |es| == 1 then PrintElem(es[0])
    else PrintElem(es[0]) + ("," + Print(es[1..]))
  }

  // ----- parsing ----------------------------------------------------------------------------------------

  /** The length of the word at the front of s. */
  function Span(s: string): (n: nat)
    ensures n <= |s| && Word(s[..n])
    ensures n == |s| || !NameChar(s[n])
  {
    if s == "" || !NameChar(s[0]) then 0
    else
      var n := Span(s[1..]);
      assert forall i :: 0 < i <= n ==> s[i] == s[1..][i - 1];
      n + 1
  }

  /** States 2 and 3: the names of a diagonal set, and what follows its closing parenthesis. */
  function ParseNames(s: string): (r: Option<(seq<string>, string)>)
    ensures r.Some? ==> |r.value.1| < |s|
  {
    if s == "" || !Letter(s[0]) then None
    else
      var n := Span(s);
      assert n > 0;
      if n == |s| then None
      else if s[n] == ')' then Some(([s[..n]], s[n + 1..]))
      else if s[n] != ',' then None
      else
        match ParseNames(s[n + 1..])
        case None => None
        case Some(r) => Some(([s[..n]] + r.0, r.1))
  }

  function ParseElem(s: string): (r: Option<(Elem, string)>)
    ensures r.Some? ==> |r.value.1| < |s|
  {
    if s == "" then None
    else if Letter(s[0]) then Some((Single(s[..Span(s)]), s[Span(s)..]))
    else if s[0] != '(' then None
    else
      match ParseNames(s[1..])
      case None => None
      case Some(r) => Some((Diagonal(r.0), r.1))
  }

  function Prepend(es: seq<Elem>, o: Option<seq<Elem>>): Option<seq<Elem>> {
    if o.None? then None else Some(es + o.value)
  }

  function Parse(s: string): Option<seq<Elem>>
    decreases |s|, 0
  {
    if s == "" then Some([])
    else
      match ParseElem(s)
      case None => None
      case Some(r) => Prepend([r.0], Tail(r.1))
  }

  /** What follows a complete loop element. */
  function Tail(s: string): Option<seq<Elem>>
    decreases |s|, 1
  {
    if s == "" then Some([]) else if s[0] == ',' then Parse(s[1..]) else None
  }

  // ----- parsing inverts printing -------------------------------------------------------------------------

  /** Nothing that could belong to a name follows. */
  predicate Ends(rest: string) {
    rest == "" || !NameChar(rest[0])
  }

  lemma {:induction false} SpanOf(n: string, rest: string)
    requires Word(n) && Ends(rest)
    ensures Span(n + rest) == |n|
  {
    if n == "" {
      assert n + rest == rest;
    } else {
      assert (n + rest)[1..] == n[1..] + rest;
      SpanOf(n[1..], rest);
    }
  }

  lemma NamesClose(n: string, rest: string)
    requires Name(n)
    ensures ParseNames(n + (")" + rest)) == Some(([n], rest))
  {
    var s := n + (")" + rest);
    SpanOf(n, ")" + rest);
    assert s[..|n|] == n && s[|n| + 1..] == rest && s[0] == n[0];
  }

  lemma NamesComma(n: string, more: string, ns: seq<string>, rest: string)
    requires Name(n) && ParseNames(more) == Some((ns, rest))
    ensures ParseNames(n + ("," + more)) == Some(([n] + ns, rest))
  {
    var s := n + ("," + more);
    SpanOf(n, "," + more);
    assert s[..|n|] == n && s[|n| + 1..] == more && s[0] == n[0];
  }

  lemma {:induction false} NamesParsed(ns: seq<string>, rest: string)
    requires GoodNames(ns)
    ensures ParseNames(Join(ns) + (")" + rest)) == Some((ns, rest))
    decreases |ns|
  {
    hide ParseNames, Name;
    if |ns| == 1 {
      NamesClose(ns[0], rest);
      assert ns == [ns[0]];
    } else {
      var more := Join(ns[1..]) + (")" + rest);
      NamesParsed(ns[1..], rest);
      NamesComma(ns[0], more, ns[1..], rest);
      assert Join(ns) + (")" + rest) == ns[0] + ("," + more);
      assert [ns[0]] + ns[1..] == ns;
    }
  }

  lemma ElemParsed(e: Elem, rest: string)
    requires GoodElem(e) && Ends(rest)
    ensures ParseElem(PrintElem(e) + rest) == Some((e, rest))
  {
    match e
    case Single(name) =>
      SpanOf(name, rest);
      assert (name + rest)[..|name|] == name && (name + rest)[|name|..] == rest;
    case Diagonal(names) =>
      var s := PrintElem(e) + rest;
      assert s[1..] == Join(names) + (")" + rest);
      NamesParsed(names, rest);
  }

  lemma AfterComma(e: Elem, more: string, es: seq<Elem>)
    requires GoodElem(e) && Parse(more) == Some(es)
    ensures Parse(PrintElem(e) + ("," + more)) == Some([e] + es)
  {
    hide PrintElem, ParseElem;
    ElemParsed(e, "," + more);
    assert ("," + more)[1..] == more;
    assert ParseElem("").None?;
  }

  lemma LastElem(e: Elem)
    requires GoodElem(e)
    ensures Parse(PrintElem(e)) == Some([e])
    ensures Parse(PrintElem(e) + ",") == Some([e])
  {
    hide PrintElem, ParseElem;
    ElemParsed(e, "");
    assert PrintElem(e) + "" == PrintElem(e);
    AfterComma(e, "", []);
    assert "," + "" == "," && [e] + [] == [e];
  }

  /** parse takes a printed list back, and a trailing comma with it. */
  lemma {:induction false} PrintParses(es: seq<Elem>)
    requires Good(es)
    ensures Parse(Print(es)) == Some(es)
    ensures es != [] ==> Parse(Print(es) + ",") == Some(es)
    decreases |es|
  {
    hide PrintElem, GoodElem;
    if es != [] {
      hide Parse;
      if |es| == 1 {
        LastElem(es[0]);
        assert es == [es[0]];
      } else {
        PrintParses(es[1..]);
        MoreParses(es[0], es[1..]);
        assert [es[0]] + es[1..] == es;
      }
    }
  }

  lemma MoreParses(e: Elem, es: seq<Elem>)
    requires GoodElem(e) && Good(es) && es != [] && Parse(Print(es)) == Some(es) && Parse(Print(es) + ",") == Some(es)
    ensures Good([e] + es) && Parse(Print([e] + es)) == Some([e] + es) && Parse(Print([e] + es) + ",") == Some([e] + es)
  {
    hide Parse, Print, PrintElem, Good, GoodElem;
    PrintMore(e, es);
    AfterComma(e, Print(es), es);
    AfterComma(e, Print(es) + ",", es);
    CommaLast(PrintElem(e), Print(es));
  }

  lemma PrintMore(e: Elem, es: seq<Elem>)
    requires GoodElem(e) && Good(es) && es != []
    ensures Good([e] + es) && Print([e] + es) == PrintElem(e) + ("," + Print(es))
  {
    hide PrintElem, GoodElem;
    assert ([e] + es)[1..] == es;
  }

  lemma CommaLast(a: string, b: string)
    ensures a + ("," + b) + "," == a + ("," + (b + ","))
  {
  }

  // ----- parse accepts nothing else -------------------------------------------------------------------------

  lemma WordFirst(s: string)
    requires s != "" && Letter(s[0])
    ensures Span(s) > 0 && Name(s[..Span(s)])
  {
    hide Word, Letter;
  }

  lemma SplitAt(s: string, n: nat)
    requires n <= |s|
    ensures s == s[..n] + s[n..]
    ensures n < |s| ==> s == s[..n] + ([s[n]] + s[n + 1..])
  {
  }

  lemma Regroup(a: string, b: string, c: string, d: string)
    ensures a + (b + (c + d)) == a + (b + c) + d
  {
  }

  lemma JoinMore(n: string, ns: seq<string>)
    requires Name(n) && GoodNames(ns)
    ensures GoodNames([n] + ns) && Join([n] + ns) == n + ("," + Join(ns))
  {
    hide Name;
    assert ([n] + ns)[1..] == ns;
  }

  lemma {:induction false} NamesPrinted(s: string)
    requires ParseNames(s).Some?
    ensures var r := ParseNames(s).value; GoodNames(r.0) && s == Join(r.0) + (")" + r.1)
    decreases |s|
  {
    hide Name, Word, Span, Letter;
    var n := Span(s);
    WordFirst(s);
    SplitAt(s, n);
    if s[n] == ')' {
      assert [s[n]] == ")";
    } else {
      MoreNamesPrinted(s, n);
    }
  }

  lemma {:induction false} MoreNamesPrinted(s: string, n: nat)
    requires n < |s| && s[n] == ',' && Name(s[..n]) && ParseNames(s[n + 1..]).Some?
    ensures var t := ParseNames(s[n + 1..]).value;
            GoodNames([s[..n]] + t.0) && s == Join([s[..n]] + t.0) + (")" + t.1)
    decreases |s|, 0
  {
    var t := ParseNames(s[n + 1..]).value;
    NamesPrinted(s[n + 1..]);
    hide *;
    JoinMore(s[..n], t.0);
    SplitAt(s, n);
    Regroup(s[..n] + ",", Join(t.0), ")", t.1);
    Regroup(s[..n], ",", Join(t.0), ")" + t.1);
  }

  lemma ElemPrinted(s: string)
    requires ParseElem(s).Some?
    ensures var r := ParseElem(s).value; GoodElem(r.0) && s == PrintElem(r.0) + r.1
  {
    hide Name, Word, Join, ParseNames, Span, Letter, GoodNames;
    if Letter(s[0]) {
      WordFirst(s);
      SplitAt(s, Span(s));
    } else {
      NamesPrinted(s[1..]);
      SetPrinted(s, ParseNames(s[1..]).value);
    }
  }

  lemma SetPrinted(s: string, r: (seq<string>, string))
    requires s != "" && s[0] == '(' && GoodNames(r.0) && s[1..] == Join(r.0) + (")" + r.1)
    ensures s == PrintElem(Diagonal(r.0)) + r.1
  {
    hide Join, Name;
    assert s == "(" + s[1..];
    Regroup("(", Join(r.0), ")", r.1);
  }

  /** s prints es, with or without one trailing comma. */
  predicate Prints(s: string, es: seq<Elem>) {
    Good(es) && (s == Print(es) || (es != [] && s == Print(es) + ","))
  }

  lemma PrintsMore(e: Elem, more: string, es: seq<Elem>)
    requires GoodElem(e) && Prints(more, es)
    ensures Prints(PrintElem(e) + ("," + more), [e] + es)
  {
    hide PrintElem;
    assert ([e] + es)[1..] == es;
    if es == [] {
      assert "," + more == ",";
    } else {
      assert Print([e] + es) == PrintElem(e) + ("," + Print(es));
    }
  }

  /** A string is taken as es just when it prints es. */
  lemma {:induction false} ParseExactly(s: string, es: seq<Elem>)
    ensures Parse(s) == Some(es) <==> Prints(s, es)
  {
    if Good(es) { PrintParses(es); }
    if Parse(s) == Some(es) { ParsedPrints(s); }
  }

  /** A name alone is a loop of its own: letters, digits and the signs _, $ and #, but no digit first. */
  lemma NameAlone(s: string)
    ensures Parse(s) == Some([Single(s)])
            <==> && s != "" && !('0' <= s[0] <= '9')
                 && forall i :: 0 <= i < |s| ==>
                      'a' <= s[i] <= 'z' || 'A' <= s[i] <= 'Z' || '0' <= s[i] <= '9'
                      || s[i] == '_' || s[i] == '$' || s[i] == '#'
  {
    hide Parse, Prints;
    ParseExactly(s, [Single(s)]);
    OneElemPrints(s);
  }

  lemma OneElemPrints(s: string)
    ensures Prints(s, [Single(s)]) <==> Name(s)
  {
    hide Name;
    if Good([Single(s)]) {
      assert GoodElem([Single(s)][0]);
      assert Print([Single(s)]) == s;
    }
    if Name(s) { OnePrints(Single(s)); }
  }

  /** Names in parentheses are one loop, names without are two. */
  lemma TwoNames(a: string, b: string)
    requires Name(a) && Name(b)
    ensures Parse("(" + (a + ("," + b) + ")")) == Some([Diagonal([a, b])])
    ensures Parse(a + ("," + b)) == Some([Single(a), Single(b)])
  {
    hide Parse, Name;
    assert [a, b][1..] == [b] && [Single(a), Single(b)][1..] == [Single(b)];
    assert Join([a, b]) == a + ("," + b) && Good([Diagonal([a, b])]);
    assert Print([Diagonal([a, b])]) == "(" + (a + ("," + b) + ")");
    PrintParses([Diagonal([a, b])]);
    PrintParses([Single(a), Single(b)]);
  }

  lemma {:induction false} ParsedPrints(s: string)
    requires Parse(s).Some?
    ensures Prints(s, Parse(s).value)
    decreases |s|
  {
    hide PrintElem, ParseElem, Prints;
    if s == "" {
      NothingPrints();
    } else {
      ElemPrinted(s);
      var r := ParseElem(s).value;
      if r.1 == "" {
        OnePrints(r.0);
        assert s == PrintElem(r.0) && [r.0] + [] == [r.0];
      } else {
        ParsedPrints(r.1[1..]);
        PrintsMore(r.0, r.1[1..], Parse(r.1[1..]).value);
        assert r.1 == "," + r.1[1..];
      }
    }
  }

  lemma NothingPrints()
    ensures Prints("", [])
  {
  }

  lemma OnePrints(e: Elem)
    requires GoodElem(e)
    ensures Prints(PrintElem(e), [e])
  {
  }
}
