/** parse and setup of src/bpsg/arrayfuncs.c: a five-state machine that cuts its text into names. */
module ArrayParser {
  import opened Common
  import opened ArrayText

  // ----- where the machine stands ---------------------------------------------------------------------------

  /** States 0 to 4; a name under way began at `from`. */
  datatype State = Start | InName(from: nat) | InSet | InSetName(from: nat) | AfterSet

  /** A diagonal set that began with the names ns. */
  function SetThen(ns: seq<string>, o: Option<(seq<string>, string)>): Option<seq<Elem>> {
    match o
    case None => None
    case Some(r) => Prepend([Diagonal(ns + r.0)], Tail(r.1))
  }

  /** What is still to come at text[i..]. */
  function Rest(text: string, st: State, i: nat, ns: seq<string>): Option<seq<Elem>>
    requires i <= |text| && (st.InName? || st.InSetName? ==> st.from <= |text|)
  {
    match st
    case Start => Parse(text[i..])
    case InName(from) => Parse(text[from..])
    case InSet => SetThen(ns, ParseNames(text[i..]))
    case InSetName(from) => SetThen(ns, ParseNames(text[from..]))
    case AfterSet => Prepend([Diagonal(ns)], Tail(text[i..]))
  }

  lemma SetBegins(s: string)
    requires s != "" && s[0] == '('
    ensures Parse(s) == SetThen([], ParseNames(s[1..]))
  {
    match ParseNames(s[1..])
    case None =>
    case Some(r) => assert [] + r.0 == r.0;
  }

  lemma NothingBegins(s: string)
    requires s != "" && s[0] != '(' && !Letter(s[0])
    ensures Parse(s).None?
  {
  }

  /** At the end of a name that began at `from`. */
  ghost predicate NameTo(text: string, from: nat, i: nat) {
    from < i <= |text| && Name(text[from..i]) && Ends(text[i..])
  }

  lemma NameSpan(text: string, from: nat, i: nat)
    requires NameTo(text, from, i)
    ensures Span(text[from..]) == i - from && text[from..][..i - from] == text[from..i]
    ensures text[from..][i - from..] == text[i..]
    ensures Letter(text[from])
  {
    SpanOf(text[from..i], text[i..]);
    assert text[from..i] + text[i..] == text[from..];
  }

  lemma NameEnds(text: string, from: nat, i: nat)
    requires NameTo(text, from, i)
    ensures Parse(text[from..]) == Prepend([Single(text[from..i])], Tail(text[i..]))
  {
    NameSpan(text, from, i);
  }

  lemma SetNameEnds(text: string, from: nat, i: nat, ns: seq<string>)
    requires NameTo(text, from, i)
    ensures i < |text| && text[i] == ',' ==>
              SetThen(ns, ParseNames(text[from..])) == SetThen(ns + [text[from..i]], ParseNames(text[i + 1..]))
    ensures i < |text| && text[i] == ')' ==>
              SetThen(ns, ParseNames(text[from..])) == Prepend([Diagonal(ns + [text[from..i]])], Tail(text[i + 1..]))
    ensures i == |text| || text[i] !in ",)" ==> SetThen(ns, ParseNames(text[from..])).None?
  {
    hide Tail, Prepend, ParseNames;
    NamesFrom(text, from, i);
    if i < |text| && text[i] == ',' && ParseNames(text[i + 1..]).Some? {
      NamesJoin(ns, text[from..i], ParseNames(text[i + 1..]).value.0);
    }
  }

  lemma NamesJoin(a: seq<string>, n: string, b: seq<string>)
    ensures a + ([n] + b) == a + [n] + b
  {
  }

  /** ParseNames at a name that ends at i. */
  lemma NamesFrom(text: string, from: nat, i: nat)
    requires NameTo(text, from, i)
    ensures ParseNames(text[from..]) ==
              if i < |text| && text[i] == ')' then Some(([text[from..i]], text[i + 1..]))
              else if i < |text| && text[i] == ',' && ParseNames(text[i + 1..]).Some? then
                var r := ParseNames(text[i + 1..]).value; Some(([text[from..i]] + r.0, r.1))
              else None
  {
    hide Name, Span;
    NameSpan(text, from, i);
    if i < |text| {
      assert text[from..][i - from] == text[i];
      assert text[from..][i - from + 1..] == text[i + 1..];
    }
  }

  lemma PrependTwice(a: seq<Elem>, b: seq<Elem>, o: Option<seq<Elem>>)
    ensures Prepend(a, Prepend(b, o)) == Prepend(a + b, o)
  {
    if o.Some? { assert a + (b + o.value) == a + b + o.value; }
  }

  // ----- the machine ----------------------------------------------------------------------------------------

  const ERROR := -1

  function AllNames(es: seq<Elem>): seq<seq<string>> {
    seq(|es|, i requires 0 <= i < |es| => NamesOf(es[i]))
  }

  /** The text with every comma and closing parenthesis before ptr made the end of a string. */
  ghost predicate Cut(was: string, now: seq<char>, ptr: nat) {
    && |now| == |was|
    && forall k :: 0 <= k < |was| ==> now[k] == if k < ptr && was[k] in ",)" then '\0' else was[k]
  }

  class Parser {
    const text: array<char>
    var state: State
    var ptr: nat
    var lpindex: nat
    var varindex: nat
    var narrays: nat
    var lpel: seq<seq<string>>
    var numberLoops: nat

    ghost const buffer: string
    ghost const source: string
    ghost const before: nat
    ghost var complete: seq<Elem>
    ghost var names: seq<string>

    ghost predicate Terminated() {
      && |source| < |buffer| && buffer[..|source|] == source && buffer[|source|] == '\0'
      && (forall k :: 0 <= k < |source| ==> source[k] != '\0')
    }

    /** The loop elements set up so far, the one under way included. */
    ghost predicate Filled()
      reads this
    {
      && lpindex == |complete| <= |lpel| && lpel[..lpindex] == AllNames(complete)
      && (names != [] ==> lpindex < |lpel| && lpel[lpindex] == names)
      && numberLoops == (if names != [] then lpindex + 1 else if lpindex > 0 then lpindex else before)
      && narrays == lpindex + (if state.Start? then 0 else 1)
      && varindex == (if state.AfterSet? then 0 else |names|)
    }

    ghost predicate Placed()
      reads this
    {
      && ptr <= |source|
      && (state.Start? || state.InName? ==> names == [])
      && (state.AfterSet? ==> names != [])
      && (state.InName? || state.InSetName? ==> state.from < ptr && Name(source[state.from..ptr]))
    }

    ghost predicate Valid()
      reads this, text
    {
      && Terminated() && Cut(buffer, text[..], ptr)
      && Filled() && Placed()
      && Prepend(complete, Rest(source, state, ptr, names)) == Parse(source)
    }

    constructor (chars: array<char>, ghost length: nat, elements: seq<seq<string>>, loops: nat)
      requires length < chars.Length && chars[length] == '\0'
      requires forall k :: 0 <= k < length ==> chars[k] != '\0'
      ensures Valid() && text == chars && source == chars[..length] && buffer == chars[..] && before == loops
      ensures ptr == 0 && state.Start? && lpel == elements
    {
      text, buffer, source, before := chars, chars[..], chars[..length], loops;
      state, ptr, lpindex, varindex, narrays := Start, 0, 0, 0, 0;
      lpel, numberLoops := elements, loops;
      complete, names := [], [];
      new;
      PrependNothing(Parse(source));
      assert source[0..] == source;
    }

    /** setup, for a variable that exists: the name becomes variable varindex of element lpindex. */
    method Setup(name: string)
      requires lpindex <= |lpel| && (varindex > 0 ==> lpindex < |lpel| && varindex <= |lpel[lpindex]|)
      modifies this`lpel, this`numberLoops
      ensures numberLoops == lpindex + 1 && lpindex < |lpel| && |old(lpel)| <= |lpel|
      ensures lpel[..lpindex] == old(lpel[..lpindex])
      ensures lpel[lpindex] == (if varindex == 0 then [] else old(lpel[lpindex][..varindex])) + [name]
    {
      if lpindex == |lpel| {
        lpel := lpel + [[]];
      }
      lpel := lpel[lpindex := lpel[lpindex][..varindex] + [name]];
      numberLoops := lpindex + 1;
    }
  
    /** What parse has done when it returns 0. */
    ghost predicate Complete(es: seq<Elem>)
      reads this, text
    {
      && |es| <= |lpel| && lpel[..|es|] == AllNames(es)
      && numberLoops == (if es == [] then before else |es|)
      && narrays == |es| && Cut(buffer, text[..], |source|)
    }

    ghost predicate Outcome(v: Verdict)
      reads this, text
    {
      match v
      case Going => Valid()
      case Accepted => Parse(source).Some? && Complete(Parse(source).value)
      case Rejected => Parse(source).None?
    }

    /** The character at ptr, which nothing has overwritten yet. */
    method Char() returns (c: char)
      requires Valid()
      ensures c == '\0' <==> ptr == |source|
      ensures ptr < |source| ==> c == source[ptr]
    {
      c := text[ptr];
      assert c == buffer[ptr];
      assert ptr < |source| ==> buffer[ptr] == source[ptr];
    }

    /** State 0: the start of a loop element. */
    method AtStart() returns (v: Verdict)
      requires Valid() && state.Start?
      modifies this
      ensures Outcome(v) && (v.Going? ==> ptr == old(ptr) + 1)
    {
      hide Parse, Tail, ParseNames, ParseElem, Prepend, AllNames, NamesOf, SetThen, Cut;
      var c := Char();
      if Letter(c) || c == '(' {
        PastPlain(buffer, text[..], ptr);
        if Letter(c) {
          OneLetter(source, ptr);
          state := InName(ptr);
        } else {
          SetBegins(source[ptr..]);
          assert source[ptr..][1..] == source[ptr + 1..];
          state := InSet;
        }
        ptr := ptr + 1;
        narrays := narrays + 1;
        v := Going;
      } else if c == '\0' {
        NothingLeft(source, complete);
        v := Accepted;
      } else {
        NothingBegins(source[ptr..]);
        PrependNone(complete);
        v := Rejected;
      }
    }
  
    /** Ends the name under way: its text becomes a string of its own, and a variable of lpel. */
    method Take(from: nat)
      requires Valid() && (state.InName? || state.InSetName?) && from == state.from && NameTo(source, from, ptr)
      requires ptr < |source| ==> source[ptr] in ",)"
      modifies this`lpel, this`numberLoops, text
      ensures lpindex < |lpel| && lpel[..lpindex] == AllNames(complete) && lpel[lpindex] == names + [source[from..ptr]]
      ensures numberLoops == lpindex + 1
      ensures Cut(buffer, text[..], if ptr < |source| then ptr + 1 else ptr)
    {
      hide Parse, Tail, ParseNames, ParseElem, Prepend, AllNames, SetThen, Rest, Cut;
      ghost var now := text[..];
      assert source[from..ptr] == buffer[from..ptr];
      CutKeepsName(buffer, now, from, ptr);
      CutAt(buffer, now, ptr);
      if text[ptr] != '\0' {
        text[ptr] := '\0';
      }
      assert text[..] == now[ptr := '\0'];
      Chop(buffer, now, ptr);
      assert text[from..ptr] == now[from..ptr];
      Setup(text[from..ptr]);
    }

    /** State 1: inside the name of a single parameter. */
    method InSingle() returns (v: Verdict)
      requires Valid() && state.InName?
      modifies this, text
      ensures Outcome(v) && (v.Going? ==> ptr == old(ptr) + 1)
    {
      hide Parse, Tail, ParseNames, ParseElem, Prepend, AllNames, SetThen, Cut, Name, NameTo;
      var c := Char();
      var from := state.from;
      if NameChar(c) {
        PastPlain(buffer, text[..], ptr);
        MoreName(source, from, ptr);
        ptr := ptr + 1;
        v := Going;
      } else {
        EndsHere(source, from, ptr);
        v := EndSingle(c, from);
      }
    }

    /** A character that is not of the name ends it. */
    method EndSingle(c: char, from: nat) returns (v: Verdict)
      requires Valid() && state.InName? && from == state.from && NameTo(source, from, ptr)
      requires !NameChar(c) && (c == '\0' <==> ptr == |source|) && (ptr < |source| ==> c == source[ptr])
      modifies this, text
      ensures Outcome(v) && (v.Going? ==> ptr == old(ptr) + 1)
    {
      hide Parse, Tail, ParseNames, ParseElem, Prepend, AllNames, SetThen, Cut, Name, NameTo;
      ghost var e := Single(source[from..ptr]);
      SingleEnds(source, from, ptr, complete);
      if c == ',' {
        Take(from);
        Grown(complete, e, lpel);
        complete := complete + [e];
        ptr := ptr + 1;
        lpindex := lpindex + 1;
        state := Start;
        v := Going;
      } else if c == '\0' {
        Take(from);
        Grown(complete, e, lpel);
        v := Accepted;
      } else {
        v := Rejected;
      }
    }
  
    /** State 2: the start of a name of a diagonal set. */
    method AtSetName() returns (v: Verdict)
      requires Valid() && state.InSet?
      modifies this
      ensures Outcome(v) && (v.Going? ==> ptr == old(ptr) + 1)
    {
      hide Parse, Tail, ParseElem, Prepend, AllNames, SetThen, Cut;
      var c := Char();
      if Letter(c) {
        hide ParseNames;
        PastPlain(buffer, text[..], ptr);
        OneLetter(source, ptr);
        state := InSetName(ptr);
        ptr := ptr + 1;
        v := Going;
      } else {
        NoNames(names, complete);
        v := Rejected;
      }
    }

    /** State 3: inside such a name. */
    method InSetWord() returns (v: Verdict)
      requires Valid() && state.InSetName?
      modifies this, text
      ensures Outcome(v) && (v.Going? ==> ptr == old(ptr) + 1)
    {
      hide Parse, Tail, ParseNames, ParseElem, Prepend, AllNames, SetThen, Cut, Name, NameTo;
      var c := Char();
      var from := state.from;
      if NameChar(c) {
        PastPlain(buffer, text[..], ptr);
        MoreName(source, from, ptr);
        ptr := ptr + 1;
        v := Going;
      } else {
        EndsHere(source, from, ptr);
        v := EndSetName(c, from);
      }
    }

    method EndSetName(c: char, from: nat) returns (v: Verdict)
      requires Valid() && state.InSetName? && from == state.from && NameTo(source, from, ptr)
      requires !NameChar(c) && (c == '\0' <==> ptr == |source|) && (ptr < |source| ==> c == source[ptr])
      modifies this, text
      ensures Outcome(v) && (v.Going? ==> ptr == old(ptr) + 1)
    {
      hide Parse, Tail, ParseNames, ParseElem, Prepend, AllNames, SetThen, Cut, Name, NameTo;
      SetNameEnds(source, from, ptr, names);
      if c == ',' || c == ')' {
        Take(from);
        names := names + [source[from..ptr]];
        if c == ',' {
          varindex := varindex + 1;
          state := InSet;
        } else {
          varindex := 0;
          state := AfterSet;
        }
        ptr := ptr + 1;
        v := Going;
      } else {
        PrependNone(complete);
        v := Rejected;
      }
    }

    /** State 4: after a diagonal set. */
    method AfterASet() returns (v: Verdict)
      requires Valid() && state.AfterSet?
      modifies this, text
      ensures Outcome(v) && (v.Going? ==> ptr == old(ptr) + 1)
    {
      hide Parse, Tail, ParseNames, ParseElem, Prepend, AllNames, SetThen, Cut;
      var c := Char();
      ghost var e := Diagonal(names);
      PrependTwice(complete, [e], Tail(source[ptr..]));
      TailAt(source, ptr);
      NothingLeft(source, complete + [e]);
      PrependNone(complete + [e]);
      if c == ',' || c == '\0' {
        Grown(complete, e, lpel);
      }
      if c == ',' {
        Chop(buffer, text[..], ptr);
        CutAt(buffer, text[..], ptr);
        ghost var now := text[..];
        text[ptr] := '\0';
        assert text[..] == now[ptr := '\0'];
        complete, names := complete + [e], [];
        ptr := ptr + 1;
        lpindex := lpindex + 1;
        state := Start;
        v := Going;
      } else if c == '\0' {
        v := Accepted;
      } else {
        v := Rejected;
      }
    }

    /** Runs the machine: 0 and the loop elements for a string that prints them, ERROR otherwise. */
    method Run() returns (ret: int)
      requires Valid() && ptr == 0
      modifies this, text
      ensures ret == 0 || ret == -1
      ensures ret == 0 <==> Parse(source).Some?
      ensures ret == 0 ==> Complete(Parse(source).value)
    {
      var v := Going;
      while v.Going?
        invariant Outcome(v) && (v.Going? ==> ptr <= |source|)
        decreases v.Going?, |source| - ptr
      {
        match state
        case Start => v := AtStart();
        case InName(_) => v := InSingle();
        case InSet => v := AtSetName();
        case InSetName(_) => v := InSetWord();
        case AfterSet => v := AfterASet();
      }
      ret := if v.Accepted? then 0 else ERROR;
    }
  }

  lemma NoNames(ns: seq<string>, es: seq<Elem>)
    ensures Prepend(es, SetThen(ns, None)) == None
  {
  }

  lemma CutAt(was: string, now: seq<char>, ptr: nat)
    requires Cut(was, now, ptr) && ptr < |was|
    ensures ptr < |now| && now[ptr] == was[ptr]
  {
  }

  lemma CutKeepsName(was: string, now: seq<char>, from: nat, ptr: nat)
    requires Cut(was, now, ptr) && from <= ptr <= |was| && Word(was[from..ptr])
    ensures now[from..ptr] == was[from..ptr]
  {
    forall k | from <= k < ptr ensures now[k] == was[k] {
      assert was[from..ptr][k - from] == was[k];
    }
  }

  lemma Chop(was: string, now: seq<char>, ptr: nat)
    requires Cut(was, now, ptr) && ptr < |was|
    ensures was[ptr] in ",)" ==> Cut(was, now[ptr := '\0'], ptr + 1)
    ensures was[ptr] == '\0' ==> Cut(was, now[ptr := '\0'], ptr)
  {
  }

  lemma EndsHere(s: string, from: nat, i: nat)
    requires from < i <= |s| && Name(s[from..i]) && (i < |s| ==> !NameChar(s[i]))
    ensures NameTo(s, from, i)
  {
  }

  lemma SingleEnds(s: string, from: nat, i: nat, es: seq<Elem>)
    requires NameTo(s, from, i)
    ensures var e, o := Single(s[from..i]), Prepend(es, Parse(s[from..]));
            && (i < |s| && s[i] == ',' ==> o == Prepend(es + [e], Parse(s[i + 1..])))
            && (i == |s| ==> o == Some(es + [e]))
            && (i < |s| && s[i] != ',' ==> o.None?)
  {
    hide Parse, Tail;
    var e := Single(s[from..i]);
    NameEnds(s, from, i);
    PrependTwice(es, [e], Tail(s[i..]));
    TailAt(s, i);
    NothingLeft(s, es + [e]);
  }

  lemma TailAt(s: string, i: nat)
    requires i <= |s|
    ensures i < |s| && s[i] == ',' ==> Tail(s[i..]) == Parse(s[i + 1..])
    ensures i < |s| && s[i] != ',' ==> Tail(s[i..]).None?
    ensures i == |s| ==> Tail(s[i..]) == Some([])
  {
    hide Parse;
    if i < |s| { assert s[i..][1..] == s[i + 1..]; }
  }

  lemma Grown(es: seq<Elem>, e: Elem, lpel: seq<seq<string>>)
    requires |es| < |lpel| && lpel[..|es|] == AllNames(es) && lpel[|es|] == NamesOf(e)
    ensures lpel[..|es| + 1] == AllNames(es + [e])
  {
    assert lpel[..|es| + 1] == lpel[..|es|] + [lpel[|es|]];
  }

  lemma MoreName(s: string, from: nat, i: nat)
    requires from < i < |s| && Name(s[from..i]) && NameChar(s[i])
    ensures Name(s[from..i + 1])
  {
    assert s[from..i + 1] == s[from..i] + [s[i]];
  }

  lemma PastPlain(was: string, now: seq<char>, ptr: nat)
    requires Cut(was, now, ptr) && (ptr < |was| ==> was[ptr] !in ",)")
    ensures Cut(was, now, ptr + 1)
  {
  }

  lemma OneLetter(s: string, i: nat)
    requires i < |s| && Letter(s[i])
    ensures Name(s[i..i + 1])
  {
  }

  lemma NothingLeft(s: string, es: seq<Elem>)
    ensures s[|s|..] == "" && Parse("") == Some([]) && Prepend(es, Some([])) == Some(es)
    ensures Tail("") == Some([])
  {
    assert es + [] == es;
  }

  lemma PrependNone(es: seq<Elem>)
    ensures Prepend(es, None) == None
  {
  }

  datatype Verdict = Going | Accepted | Rejected

  lemma PrependNothing(o: Option<seq<Elem>>)
    ensures Prepend([], o) == o
  {
    if o.Some? { assert [] + o.value == o.value; }
  }
}
