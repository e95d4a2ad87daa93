/** parse_array of src/bpsg/xmath.c: the second reading of the parameter `array`, which numbers the
    variables for the time estimate. */
module ArrayIds {
  import opened Common
  import opened ArrayText

  datatype Entry = Entry(name: string, xarray: bool, id: int)

  /** The name under way, the open parentheses, whether a set has a name yet, the next id. */
  datatype Scan = Scan(aname: string, lpr: int, lp2: bool, id: int, list: seq<Entry>)

  const SCAN0 := Scan("", 0, false, 0, [])

  predicate Separator(c: char) {
    c == ' ' || c == ',' || c == '(' || c == ')'
  }

  function Flush(s: Scan): Scan {
    if s.aname == "" then s
    else if s.lpr == 0 then s.(aname := "", id := s.id + 1, list := s.list + [Entry(s.aname, false, s.id)])
    else s.(aname := "", lp2 := true, list := s.list + [Entry(s.aname, true, s.id)])
  }

  function Feed(c: char, s: Scan): Scan {
    if !Separator(c) then s.(aname := s.aname + [c])
    else
      var f := Flush(s);
      if c == '(' then f.(lpr := f.lpr + 1)
      else if c != ')' then f
      else if f.lpr == 1 && f.lp2 then f.(lpr := 0, lp2 := false, id := f.id + 1)
      else f.(lpr := f.lpr - 1)
  }

  function FeedAll(text: string, s: Scan): Scan {
    if text == "" then s else FeedAll(text[1..], Feed(text[0], s))
  }

  function Blank(text: string): nat
    ensures Blank(text) <= |text|
  {
    if text != "" && (text[0] == ' ' || text[0] == '\t') then Blank(text[1..]) + 1 else 0
  }

  function ArrayList(text: string): seq<Entry> {
    Flush(FeedAll(text[Blank(text)..], SCAN0)).list
  }

  /** One character: a separator ends the name under way, a parenthesis opens or closes a set. */
  method Character(c: char, aname: string, lpr: int, lp2: bool, id: int, list: seq<Entry>)
      returns (aname': string, lpr': int, lp2': bool, id': int, list': seq<Entry>)
    ensures Scan(aname', lpr', lp2', id', list') == Feed(c, Scan(aname, lpr, lp2, id, list))
  {
    aname', lpr', lp2', id', list' := aname, lpr, lp2, id, list;
    if c == ' ' || c == ',' || c == '(' || c == ')' {
      if |aname| > 0 {
        if lpr == 0 {
          list' := list + [Entry(aname, false, id)];
          id' := id + 1;
        } else {
          list' := list + [Entry(aname, true, id)];
          lp2' := true;
        }
      }
      aname' := "";
      if c == '(' {
        lpr' := lpr + 1;
      } else if c == ')' {
        lpr' := lpr - 1;
        if lpr' == 0 && lp2' {
          id' := id' + 1;
          lp2' := false;
        }
      }
    } else {
      aname' := aname + [c];
    }
  }

  method ParseArray(text: string) returns (list: seq<Entry>)
    ensures list == ArrayList(text)
  {
    var i := 0;
    while i < |text| && (text[i] == ' ' || text[i] == '\t')
      invariant i <= |text| && Blank(text) == i + Blank(text[i..])
    {
      i := i + 1;
    }
    ghost var rest := text[Blank(text)..];
    assert rest == text[i..];
    hide Blank, FeedAll, Feed;
    var aname, lpr, lp2, id := "", 0, false, 0;
    list := [];
    while i < |text|
      invariant i <= |text|
      invariant FeedAll(rest, SCAN0) == FeedAll(text[i..], Scan(aname, lpr, lp2, id, list))
    {
      FeedNext(text, i, Scan(aname, lpr, lp2, id, list));
      aname, lpr, lp2, id, list := Character(text[i], aname, lpr, lp2, id, list);
      i := i + 1;
    }
    assert text[i..] == "";
    FeedNone(Scan(aname, lpr, lp2, id, list));
    if |aname| > 0 {
      list := list + [Entry(aname, lpr != 0, id)];
    }
  }

  lemma FeedNext(text: string, i: nat, s: Scan)
    requires i < |text|
    ensures FeedAll(text[i..], s) == FeedAll(text[i + 1..], Feed(text[i], s))
  {
    assert text[i..][1..] == text[i + 1..] && text[i..][0] == text[i];
  }

  // ----- the ids are the loop indices -----------------------------------------------------------------------

  function SetEntries(ns: seq<string>, id: int): seq<Entry> {
    seq(|ns|, i requires 0 <= i < |ns| => Entry(ns[i], true, id))
  }

  /** What element e of the array contributes as loop number id. */
  function ElemEntries(e: Elem, id: int): seq<Entry> {
    match e
    case Single(name) => [Entry(name, false, id)]
    case Diagonal(names) => SetEntries(names, id)
  }

  function LoopEntries(es: seq<Elem>, id: int): seq<Entry> {
    if es == [] then [] else ElemEntries(es[0], id) + LoopEntries(es[1..], id + 1)
  }

  lemma {:induction false} FeedBoth(a: string, b: string, s: Scan)
    ensures FeedAll(a + b, s) == FeedAll(b, FeedAll(a, s))
  {
    if a == "" {
      assert a + b == b;
    } else {
      assert (a + b)[1..] == a[1..] + b;
      FeedBoth(a[1..], b, Feed(a[0], s));
    }
  }

  lemma {:induction false} FeedWord(n: string, s: Scan)
    requires Word(n)
    ensures FeedAll(n, s) == s.(aname := s.aname + n)
  {
    if n == "" {
      assert s.aname + n == s.aname;
    } else {
      FeedWord(n[1..], Feed(n[0], s));
      assert s.aname + [n[0]] + n[1..] == s.aname + n;
    }
  }

  lemma FeedNameThen(n: string, rest: string, s: Scan)
    requires Word(n) && s.aname == ""
    ensures FeedAll(n + rest, s) == FeedAll(rest, s.(aname := n))
  {
    FeedBoth(n, rest, s);
    FeedWord(n, s);
    assert "" + n == n;
  }

  lemma FeedFirst(c: char, rest: string, s: Scan)
    ensures FeedAll([c] + rest, s) == FeedAll(rest, Feed(c, s))
  {
    assert ([c] + rest)[1..] == rest;
  }

  lemma {:induction false} FeedNames(ns: seq<string>, rest: string, s: Scan)
    requires GoodNames(ns) && s.aname == "" && s.lpr == 1
    ensures FeedAll(Join(ns) + (")" + rest), s) ==
            FeedAll(rest, Scan("", 0, false, s.id + 1, s.list + SetEntries(ns, s.id)))
    decreases |ns|
  {
    hide FeedAll, SetEntries;
    var n := ns[0];
    FirstEntry(ns, s.id);
    if |ns| == 1 {
      assert ns[1..] == [] && SetEntries(ns, s.id) == [Entry(n, true, s.id)];
      FeedNameThen(n, ")" + rest, s);
      FeedFirst(')', rest, s.(aname := n));
    } else {
      var more := Join(ns[1..]) + (")" + rest);
      var t := s.(lp2 := true, list := s.list + [Entry(n, true, s.id)]);
      Regroup(n, ",", Join(ns[1..]), ")" + rest);
      FeedNameThen(n, "," + more, s);
      FeedFirst(',', more, s.(aname := n));
      FeedNames(ns[1..], rest, t);
      EntriesJoin(s.list, Entry(n, true, s.id), SetEntries(ns[1..], s.id));
    }
  }

  lemma FirstEntry(ns: seq<string>, id: int)
    requires ns != []
    ensures SetEntries(ns, id) == [Entry(ns[0], true, id)] + SetEntries(ns[1..], id)
    ensures SetEntries([], id) == []
  {
  }

  lemma EntriesJoin(a: seq<Entry>, e: Entry, b: seq<Entry>)
    ensures a + [e] + b == a + ([e] + b)
  {
  }

  /** At the start of loop number id. */
  function Between(id: int, list: seq<Entry>): Scan {
    Scan("", 0, false, id, list)
  }

  lemma FeedElem(e: Elem, rest: string, id: int, list: seq<Entry>)
    requires GoodElem(e)
    ensures FeedAll(PrintElem(e) + ("," + rest), Between(id, list)) ==
            FeedAll(rest, Between(id + 1, list + ElemEntries(e, id)))
    ensures Flush(FeedAll(PrintElem(e), Between(id, list))).list == list + ElemEntries(e, id)
  {
    hide FeedAll, Join;
    var s := Between(id, list);
    match e
    case Single(name) =>
      FeedNameThen(name, "," + rest, s);
      FeedFirst(',', rest, s.(aname := name));
      FeedNameThen(name, "", s);
      assert name + "" == name;
      FeedNone(s.(aname := name));
    case Diagonal(names) =>
      var open := s.(lpr := 1);
      var done := Between(id + 1, list + SetEntries(names, id));
      assert PrintElem(e) + ("," + rest) == "(" + (Join(names) + (")" + ("," + rest)));
      FeedFirst('(', Join(names) + (")" + ("," + rest)), s);
      FeedNames(names, "," + rest, open);
      FeedFirst(',', rest, done);
      assert Join(names) + ")" == Join(names) + (")" + "");
      FeedFirst('(', Join(names) + ")", s);
      FeedNames(names, "", open);
      FeedNone(done);
  }

  lemma FeedNone(s: Scan)
    ensures FeedAll("", s) == s
  {
  }

  lemma {:induction false} FeedPrinted(es: seq<Elem>, id: int, list: seq<Entry>)
    requires Good(es)
    ensures Flush(FeedAll(Print(es), Between(id, list))).list == list + LoopEntries(es, id)
    decreases |es|
  {
    hide PrintElem, ElemEntries;
    if es == [] {
      assert list + [] == list;
    } else {
      var more := list + ElemEntries(es[0], id);
      PrintFirst(es);
      FirstEntries(list, es, id);
      hide FeedAll, Flush, Print, LoopEntries;
      FeedElem(es[0], if |es| == 1 then "" else Print(es[1..]), id, list);
      if |es| > 1 { FeedPrinted(es[1..], id + 1, more); }
    }
  }

  lemma PrintFirst(es: seq<Elem>)
    requires Good(es) && es != []
    ensures GoodElem(es[0]) && Good(es[1..])
    ensures Print(es) == if |es| == 1 then PrintElem(es[0]) else PrintElem(es[0]) + ("," + Print(es[1..]))
  {
  }

  lemma FirstEntries(list: seq<Entry>, es: seq<Elem>, id: int)
    requires es != []
    ensures var more := list + ElemEntries(es[0], id);
            list + LoopEntries(es, id) == if |es| == 1 then more else more + LoopEntries(es[1..], id + 1)
  {
    hide ElemEntries;
    if |es| == 1 {
      assert LoopEntries(es[1..], id + 1) == [];
    }
  }

  lemma NoBlank(es: seq<Elem>)
    requires Good(es)
    ensures Blank(Print(es)) == 0
  {
    if es != [] && es[0].Diagonal? { assert PrintElem(es[0])[0] == '('; }
  }

  /** Every variable gets the number of the loop element that parse puts it in. */
  lemma IdsAreLoops(es: seq<Elem>)
    requires Good(es)
    ensures ArrayList(Print(es)) == LoopEntries(es, 0)
  {
    NoBlank(es);
    assert Print(es)[0..] == Print(es);
    FeedPrinted(es, 0, []);
    assert [] + LoopEntries(es, 0) == LoopEntries(es, 0);
  }

  /** So the list has an entry for a variable just when the array has it in the loop of that number, and with
      the right kind. */
  lemma EntriesOf(es: seq<Elem>, e: Entry)
    requires Good(es)
    ensures e in ArrayList(Print(es))
            <==> 0 <= e.id < |es| && match es[e.id]
                                     case Single(name) => e.name == name && !e.xarray
                                     case Diagonal(names) => e.name in names && e.xarray
  {
    IdsAreLoops(es);
    hide ArrayList;
    EntriesFrom(es, 0, e);
  }

  lemma {:induction false} EntriesFrom(es: seq<Elem>, id: nat, e: Entry)
    ensures e in LoopEntries(es, id)
            <==> id <= e.id < id + |es| && match es[e.id - id]
                                           case Single(name) => e.name == name && !e.xarray
                                           case Diagonal(names) => e.name in names && e.xarray
  {
    if es != [] {
      EntriesFrom(es[1..], id + 1, e);
      FirstEntriesOf(es[0], id, e);
      hide ElemEntries;
    }
  }

  lemma FirstEntriesOf(x: Elem, id: int, e: Entry)
    ensures e in ElemEntries(x, id)
            <==> e.id == id && match x
                               case Single(name) => e.name == name && !e.xarray
                               case Diagonal(names) => e.name in names && e.xarray
  {
    if x.Diagonal? && e.id == id && e.xarray && e.name in x.names {
      var i :| 0 <= i < |x.names| && x.names[i] == e.name;
      assert SetEntries(x.names, id)[i] == e;
    }
  }
}
