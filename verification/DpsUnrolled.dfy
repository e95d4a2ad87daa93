/** The fully unrolled reading of a block, in which every loop makes all its passes, and when the
    simulator's time is the unrolled program's. */
module DpsUnrolled {
  import opened DpsNodes
  import opened DpsBlocks

  // ----- every pass of every loop -----------------------------------------------------------------------

  datatype Result = Result(time: real, rt: Vars)

  function Full(b: Block, inc: seq<real>, rt: Vars): Result
    requires |inc| == DELAYS
    decreases b, 2
  {
    if b.Done? then Result(0.0, rt)
    else
      var a := FullFront(b, inc, rt);
      var r := Full(b.rest, inc, a.rt);
      Result(a.time + r.time, r.rt)
  }

  function FullFront(b: Block, inc: seq<real>, rt: Vars): Result
    requires |inc| == DELAYS && !b.Done?
    decreases b, 1
  {
    match b
    case Leaf(node, _) => var a := LeafOut(node, inc, rt); Result(a.time, a.rt)
    case Loop(start, body, ctr, _) =>
      var (rt1, n) := EnterLoop(start, rt);
      FullPasses(body, ctr, n, inc, rt1)
    case If(test, thn, hasElse, els, _) =>
      var (taken, rt1) := Taken(test, rt);
      if taken then Full(thn, inc, rt1) else if hasElse then Full(els, inc, rt1) else Result(0.0, rt1)
    case Par(chans, _) => FullChannels(chans, inc, rt, 0.0)
  }

  /** n passes; the counter goes down by one between them. */
  function FullPasses(body: Block, ctr: int, n: int, inc: seq<real>, rt: Vars): Result
    requires |inc| == DELAYS && n >= 1
    decreases body, n + 2
  {
    var p := Full(body, inc, rt);
    if n == 1 then p
    else
      var q := FullPasses(body, ctr, n - 1, inc, Set(p.rt, ctr, n - 1));
      Result(p.time + q.time, q.rt)
  }

  function FullChannels(chans: Channels, inc: seq<real>, rt: Vars, longest: real): Result
    requires |inc| == DELAYS
    decreases chans, 0
  {
    match chans
    case NoChannels => Result(longest, rt)
    case Channel(_, body, more) =>
      var p := Full(body, inc, rt);
      FullChannels(more, inc, p.rt, Larger(longest, p.time))
  }

  // ----- which variables may differ -----------------------------------------------------------------------

  ghost predicate Agree(r: Vars, f: Vars, d: set<int>) {
    forall v :: v !in d ==> Get(r, v) == Get(f, v)
  }

  lemma SetSame(r: Vars, f: Vars, d: set<int>, v: int, x: int)
    requires Agree(r, f, d)
    ensures Agree(Set(r, v, x), Set(f, v, x), d - {v})
  {
  }

  /** The operands an operation reads. */
  function Operands(op: Arith, a: int, b: int): set<int> {
    match op
    case RAdd | RSub | RDivn | RModn | RMult => {a, b}
    case RDbl | RHlv | RDecr | RIncr | RMod2 | RMod4 | RAssign => {a}
  }

  function LeafDirt(n: Node, d: set<int>): set<int> {
    match n
    case Rvop(op, a, b, c) =>
      var t := ArithTarget(op, a, b, c);
      if Operands(op, a, b) * d == {} then d - {t} else d + {t}
    case SetVal(v, _) => d - {v}
    case _ => d
  }

  function EnterDirt(start: Node, d: set<int>): set<int> {
    match start
    case Sloop(_, ctr) => d - {ctr}
    case Msloop(count, ctr, _) => d - {count, ctr}
    case Rlloop(_, count, ctr) => d - {count, ctr}
    case _ => d
  }

  predicate EnterClean(start: Node, d: set<int>) {
    match start
    case Sloop(count, _) => count !in d
    case Hloop(count) => count !in d
    case _ => true
  }

  predicate TestClean(test: Node, d: set<int>) {
    match test
    case IfZero(v) => v !in d
    case IfRt(_, a, b, _) => a !in d && b !in d
    case _ => true
  }

  function TestDirt(test: Node, d: set<int>): set<int> {
    if test.IfRt? then d - {test.dst} else d
  }

  function NodeWrites(n: Node): set<int> {
    match n
    case Rvop(op, a, b, c) => {ArithTarget(op, a, b, c)}
    case SetVal(v, _) => {v}
    case Sloop(_, ctr) => {ctr}
    case Msloop(count, ctr, _) => {count, ctr}
    case Rlloop(_, count, ctr) => {count, ctr}
    case IfRt(_, _, _, dst) => {dst}
    case _ => {}
  }

  /** Every variable a block may write. */
  function Writes(b: Block): set<int>
    decreases b
  {
    match b
    case Done => {}
    case Leaf(node, rest) => NodeWrites(node) + Writes(rest)
    case Loop(start, body, ctr, rest) => NodeWrites(start) + Writes(body) + {ctr} + Writes(rest)
    case If(test, thn, _, els, rest) => NodeWrites(test) + Writes(thn) + Writes(els) + Writes(rest)
    case Par(chans, rest) => ChannelWrites(chans) + Writes(rest)
  }

  function ChannelWrites(chans: Channels): set<int>
    decreases chans
  {
    match chans
    case NoChannels => {}
    case Channel(_, body, more) => Writes(body) + ChannelWrites(more)
  }

  /** Every way through the block asks its own level for another pass. */
  predicate Sure(b: Block)
    decreases b
  {
    match b
    case Done => false
    case Leaf(node, rest) => (node.IncDly? && node.slot < DELAYS) || Sure(rest)
    case Loop(_, _, _, rest) => Sure(rest)
    case If(_, thn, hasElse, els, rest) => (Sure(thn) && hasElse && Sure(els)) || Sure(rest)
    case Par(_, rest) => Sure(rest)
  }

  /** Two runs that start with only the variables of d different end with only these different. */
  function Dirt(b: Block, d: set<int>): set<int>
    decreases b, 2
  {
    if b.Done? then d else Dirt(b.rest, FrontDirt(b, d))
  }

  function FrontDirt(b: Block, d: set<int>): set<int>
    requires !b.Done?
    decreases b, 1
  {
    match b
    case Leaf(node, _) => LeafDirt(node, d)
    case Loop(start, body, ctr, _) => Dirt(body, PassDirt(body, ctr, EnterDirt(start, d)))
    case If(test, thn, hasElse, els, _) =>
      var e := TestDirt(test, d); Dirt(thn, e) + (if hasElse then Dirt(els, e) else e)
    case Par(chans, _) => ChannelsDirt(chans, d)
  }

  function ChannelsDirt(chans: Channels, d: set<int>): set<int>
    decreases chans, 0
  {
    match chans
    case NoChannels => d
    case Channel(_, body, more) => ChannelsDirt(more, Dirt(body, d))
  }

  /** What may differ at the start of some pass: nothing that both runs step through together,
      otherwise whatever a pass leaves behind. */
  function PassDirt(body: Block, ctr: int, d: set<int>): set<int>
    decreases body, 4
  {
    if Lockstep(body, ctr, d) then d else d + Writes(body) + {ctr}
  }

  /** A loop that is sure to be re-run, and whose passes bring no new difference. */
  predicate Lockstep(body: Block, ctr: int, d: set<int>)
    decreases body, 3
  {
    Sure(body) && Dirt(body, d) - {ctr} <= d
  }

  /** Nothing that decides a time reads a variable that may differ. */
  predicate Clean(b: Block, d: set<int>)
    decreases b, 2
  {
    b.Done? || (FrontClean(b, d) && Clean(b.rest, FrontDirt(b, d)))
  }

  predicate FrontClean(b: Block, d: set<int>)
    requires !b.Done?
    decreases b, 1
  {
    match b
    case Leaf(node, _) => (node.IncDly? && node.slot < DELAYS) ==> node.v !in d
    case Loop(start, body, ctr, _) =>
      EnterClean(start, d) && Clean(body, PassDirt(body, ctr, EnterDirt(start, d)))
    case If(test, thn, hasElse, els, _) =>
      TestClean(test, d) && Clean(thn, TestDirt(test, d)) && Clean(els, TestDirt(test, d))
    case Par(chans, _) => ChannelsClean(chans, d)
  }

  predicate ChannelsClean(chans: Channels, d: set<int>)
    decreases chans, 0
  {
    match chans
    case NoChannels => true
    case Channel(_, body, more) => Clean(body, d) && ChannelsClean(more, Dirt(body, d))
  }

  // ----- what passes the check ----------------------------------------------------------------------------

  /** A pause just when variable v is zero. */
  function PauseIfZero(v: int, w: real): Block {
    If(IfZero(v), Leaf(Timed(w), Done), false, Done, Done)
  }

  lemma PauseIsClean(v: int, w: real, d: set<int>)
    requires v !in d
    ensures Clean(PauseIfZero(v, w), d) && Dirt(PauseIfZero(v, w), d) == d
  {
    var b, t := PauseIfZero(v, w), Leaf(Timed(w), Done);
    assert Clean(Done, d) && Clean(t, d) && FrontClean(b, d);
    assert Dirt(t, d) == Dirt(Done, d) == d && FrontDirt(b, d) == d + d == d;
  }

  /** Whatever may differ, a variable may be tested after it has been assigned a number, the result of an
      operation on variables that are the same, or that of a comparison of such ... */
  lemma AssignedIsClean(v: int, x: real, op: Arith, a: int, b: int, cmp: Compare, w: real, d: set<int>)
    requires a !in d && b !in d
    ensures Clean(Leaf(SetVal(v, x), PauseIfZero(v, w)), d)
    ensures Clean(Leaf(Rvop(op, a, b, v), PauseIfZero(ArithTarget(op, a, b, v), w)), d)
    ensures Clean(If(IfRt(cmp, a, b, v), PauseIfZero(v, w), false, Done, Done), d)
  {
    var t := ArithTarget(op, a, b, v);
    PauseIsClean(v, w, d - {v});
    PauseIsClean(t, w, d - {t});
    hide Dirt;
    assert Operands(op, a, b) * d == {};
    assert FrontDirt(Leaf(SetVal(v, x), PauseIfZero(v, w)), d) == d - {v};
    assert FrontDirt(Leaf(Rvop(op, a, b, v), PauseIfZero(t, w)), d) == d - {t};
    var test := If(IfRt(cmp, a, b, v), PauseIfZero(v, w), false, Done, Done);
    assert Clean(Done, d - {v}) && FrontClean(test, d) && Clean(Done, FrontDirt(test, d));
  }

  /** ... and in a loop that every pass asks to be run again, the counter may be used in every pass. */
  lemma RerunIsClean(start: Node, v: int, slot: nat, d: set<int>)
    requires slot < DELAYS && (start.Sloop? || start.Msloop? || start.Rlloop?)
    requires (start.Sloop? ==> start.count !in d) && v !in d && v != start.ctr
    ensures var step := Leaf(IncDly(start.ctr, slot), Done);
            && Clean(Loop(start, step, start.ctr, Done), d)
            && Clean(Loop(start, If(IfZero(v), step, true, step, Done), start.ctr, Done), d)
  {
    var ctr, e := start.ctr, EnterDirt(start, d);
    var step := Leaf(IncDly(ctr, slot), Done);
    var either := If(IfZero(v), step, true, step, Done);
    assert ctr !in e && v !in e && Dirt(Done, e) == e && Dirt(step, e) == e && Clean(Done, e) && Clean(step, e);
    assert FrontDirt(either, e) == e && Dirt(either, e) == e && FrontClean(either, e) && Clean(either, e);
    assert Lockstep(step, ctr, e) && Lockstep(either, ctr, e);
    assert FrontClean(Loop(start, step, ctr, Done), d) && FrontClean(Loop(start, either, ctr, Done), d);
  }

  /** An INCDLY of no delay, and a parallel section of pauses, always pass. */
  lemma IdleIsClean(v: int, slot: nat, c: int, w: real, d: set<int>)
    requires slot >= 5
    ensures Clean(Leaf(IncDly(v, slot), Done), d)
    ensures Clean(Par(Channel(c, Leaf(Timed(w), Done), NoChannels), Done), d)
  {
    var t := Leaf(Timed(w), Done);
    assert Clean(Done, d) && FrontClean(Leaf(IncDly(v, slot), Done), d);
    assert FrontDirt(t, d) == d && FrontClean(t, d) && Clean(t, d);
    var p := Par(Channel(c, t, NoChannels), Done);
    assert ChannelsClean(NoChannels, Dirt(t, d)) && ChannelsClean(p.chans, d) && FrontClean(p, d);
    assert Clean(Done, FrontDirt(p, d));
  }

  // ----- single nodes -----------------------------------------------------------------------------------------

  lemma LeafAgrees(n: Node, inc: seq<real>, r: Vars, f: Vars, d: set<int>)
    requires |inc| == DELAYS && Agree(r, f, d)
    requires (n.IncDly? && n.slot < DELAYS) ==> n.v !in d
    ensures LeafOut(n, inc, r).time == LeafOut(n, inc, f).time
    ensures Agree(LeafOut(n, inc, r).rt, LeafOut(n, inc, f).rt, LeafDirt(n, d))
    ensures Agree(f, LeafOut(n, inc, f).rt, NodeWrites(n))
  {
    hide Scale, Nearest;
    if n.Rvop? && Operands(n.op, n.a, n.b) * d == {} { ArithAgrees(n.op, n.a, n.b, r, f, d); }
  }

  lemma ArithAgrees(op: Arith, a: int, b: int, r: Vars, f: Vars, d: set<int>)
    requires Agree(r, f, d) && Operands(op, a, b) * d == {}
    ensures ArithResult(op, Get(r, a), Get(r, b)) == ArithResult(op, Get(f, a), Get(f, b))
  {
    var ops := Operands(op, a, b);
    assert forall v :: v in ops ==> v !in ops * d ==> v !in d;
    assert a in ops && (op in {RAdd, RSub, RDivn, RModn, RMult} ==> b in ops);
  }

  lemma EnterAgrees(start: Node, r: Vars, f: Vars, d: set<int>)
    requires Agree(r, f, d) && EnterClean(start, d)
    ensures EnterLoop(start, r).1 == EnterLoop(start, f).1
    ensures Agree(EnterLoop(start, r).0, EnterLoop(start, f).0, EnterDirt(start, d))
    ensures Agree(f, EnterLoop(start, f).0, NodeWrites(start))
  {
    hide Nearest;
  }

  lemma TestAgrees(test: Node, r: Vars, f: Vars, d: set<int>)
    requires Agree(r, f, d) && TestClean(test, d)
    ensures Taken(test, r).0 == Taken(test, f).0
    ensures Agree(Taken(test, r).1, Taken(test, f).1, TestDirt(test, d))
    ensures Agree(f, Taken(test, f).1, NodeWrites(test))
  {
  }

  lemma AgreeMore(r: Vars, f: Vars, d: set<int>, e: set<int>)
    requires Agree(r, f, d) && d <= e
    ensures Agree(r, f, e)
  {
  }

  lemma AgreeThen(a: Vars, b: Vars, c: Vars, d: set<int>, e: set<int>)
    requires Agree(a, b, d) && Agree(b, c, e)
    ensures Agree(a, c, d + e)
  {
  }

  // ----- what a block writes ------------------------------------------------------------------------------------

  lemma {:induction false} FullWrites(b: Block, inc: seq<real>, f: Vars)
    requires |inc| == DELAYS
    ensures Agree(f, Full(b, inc, f).rt, Writes(b))
    decreases b, 2
  {
    hide Agree, FullFront;
    if b.Done? {
      SameAgrees(f);
    } else {
      var a := FullFront(b, inc, f);
      FrontWrites(b, inc, f);
      FullWrites(b.rest, inc, a.rt);
      AgreeThen(f, a.rt, Full(b.rest, inc, a.rt).rt, FrontWritten(b), Writes(b.rest));
    }
  }

  lemma SameAgrees(f: Vars)
    ensures Agree(f, f, {})
  {
  }

  function FrontWritten(b: Block): set<int>
    requires !b.Done?
  {
    match b
    case Leaf(node, _) => NodeWrites(node)
    case Loop(start, body, ctr, _) => NodeWrites(start) + Writes(body) + {ctr}
    case If(test, thn, _, els, _) => NodeWrites(test) + Writes(thn) + Writes(els)
    case Par(chans, _) => ChannelWrites(chans)
  }

  lemma {:induction false} FrontWrites(b: Block, inc: seq<real>, f: Vars)
    requires |inc| == DELAYS && !b.Done?
    ensures Agree(f, FullFront(b, inc, f).rt, FrontWritten(b))
    decreases b, 1
  {
    hide Agree, EnterLoop, Taken, LeafOut;
    SameAgrees(f);
    var none: set<int> := {};
    match b
    case Leaf(node, _) => LeafAgrees(node, inc, f, f, none);
    case Loop(start, body, ctr, _) =>
      EnterAgrees(start, f, f, none);
      var (f1, n) := EnterLoop(start, f);
      PassesWrite(body, ctr, n, inc, f1);
      AgreeThen(f, f1, FullPasses(body, ctr, n, inc, f1).rt, NodeWrites(start), Writes(body) + {ctr});
      assert NodeWrites(start) + (Writes(body) + {ctr}) == FrontWritten(b);
    case If(test, thn, hasElse, els, _) =>
      TestAgrees(test, f, f, none);
      var (taken, f1) := Taken(test, f);
      if taken {
        FullWrites(thn, inc, f1);
        AgreeThen(f, f1, Full(thn, inc, f1).rt, NodeWrites(test), Writes(thn));
        AgreeMore(f, Full(thn, inc, f1).rt, NodeWrites(test) + Writes(thn), FrontWritten(b));
      } else if hasElse {
        FullWrites(els, inc, f1);
        AgreeThen(f, f1, Full(els, inc, f1).rt, NodeWrites(test), Writes(els));
        AgreeMore(f, Full(els, inc, f1).rt, NodeWrites(test) + Writes(els), FrontWritten(b));
      } else {
        AgreeMore(f, f1, NodeWrites(test), FrontWritten(b));
      }
    case Par(chans, _) => ChannelsWrite(chans, inc, f, 0.0);
  }

  lemma {:induction false} PassesWrite(body: Block, ctr: int, n: int, inc: seq<real>, f: Vars)
    requires |inc| == DELAYS && n >= 1
    ensures Agree(f, FullPasses(body, ctr, n, inc, f).rt, Writes(body) + {ctr})
    decreases body, n + 2
  {
    hide Agree, Full, Writes, Set;
    var w := Writes(body) + {ctr};
    var p := Full(body, inc, f);
    FullWrites(body, inc, f);
    AgreeMore(f, p.rt, Writes(body), w);
    if n > 1 {
      var g := Set(p.rt, ctr, n - 1);
      SetWrites(p.rt, ctr, n - 1);
      AgreeThen(f, p.rt, g, w, {ctr});
      PassesWrite(body, ctr, n - 1, inc, g);
      AgreeThen(f, g, FullPasses(body, ctr, n - 1, inc, g).rt, w + {ctr}, w);
      assert w + {ctr} + w == w;
    }
  }

  lemma SetWrites(f: Vars, v: int, x: int)
    ensures Agree(f, Set(f, v, x), {v})
  {
  }

  lemma {:induction false} ChannelsWrite(chans: Channels, inc: seq<real>, f: Vars, longest: real)
    requires |inc| == DELAYS
    ensures Agree(f, FullChannels(chans, inc, f, longest).rt, ChannelWrites(chans))
    decreases chans, 0
  {
    hide Agree, Full, Writes;
    match chans
    case NoChannels => SameAgrees(f);
    case Channel(_, body, more) =>
      var p := Full(body, inc, f);
      FullWrites(body, inc, f);
      ChannelsWrite(more, inc, p.rt, Larger(longest, p.time));
      AgreeThen(f, p.rt, FullChannels(more, inc, p.rt, Larger(longest, p.time)).rt, Writes(body), ChannelWrites(more));
  }

  // ----- no difference comes from nowhere ---------------------------------------------------------------------

  lemma {:induction false} DirtBound(b: Block, d: set<int>)
    ensures Dirt(b, d) <= d + Writes(b)
    decreases b, 2
  {
    hide FrontDirt;
    if !b.Done? {
      FrontBound(b, d);
      DirtBound(b.rest, FrontDirt(b, d));
    }
  }

  lemma {:induction false} FrontBound(b: Block, d: set<int>)
    requires !b.Done?
    ensures FrontDirt(b, d) <= d + FrontWritten(b)
    decreases b, 1
  {
    hide Dirt, Writes, Lockstep;
    match b
    case Leaf(node, _) =>
    case Loop(start, body, ctr, _) => DirtBound(body, PassDirt(body, ctr, EnterDirt(start, d)));
    case If(test, thn, hasElse, els, _) =>
      DirtBound(thn, TestDirt(test, d));
      DirtBound(els, TestDirt(test, d));
    case Par(chans, _) => ChannelsBound(chans, d);
  }

  lemma {:induction false} ChannelsBound(chans: Channels, d: set<int>)
    ensures ChannelsDirt(chans, d) <= d + ChannelWrites(chans)
    decreases chans, 0
  {
    hide Dirt, Writes;
    match chans
    case NoChannels =>
    case Channel(_, body, more) =>
      DirtBound(body, d);
      ChannelsBound(more, Dirt(body, d));
  }
}
