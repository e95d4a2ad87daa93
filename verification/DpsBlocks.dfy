/** Well-nested node lists, and what one run of the simulator over such a list leaves.  A block
    says how the nodes nest; Flatten gives back the list. */
module DpsBlocks {
  import opened DpsNodes

  datatype Block =
    | Done
    | Leaf(node: Node, rest: Block)
    | Loop(start: Node, body: Block, ctr: int, rest: Block)
    | If(test: Node, thn: Block, hasElse: bool, els: Block, rest: Block)
    | Par(chans: Channels, rest: Block)

  datatype Channels = NoChannels | Channel(chan: int, body: Block, more: Channels)

  function Cons(n: Node, rest: seq<Node>): seq<Node> {
    [n] + rest
  }

  function Cat(part: seq<Node>, rest: seq<Node>): seq<Node> {
    part + rest
  }

  function Flatten(b: Block): seq<Node>
    decreases b, 1
  {
    if b.Done? then [] else Cat(FlattenFront(b), Flatten(b.rest))
  }

  function FlattenFront(b: Block): seq<Node>
    requires !b.Done?
    decreases b, 0
  {
    match b
    case Leaf(node, _) => Cons(node, [])
    case Loop(start, body, ctr, _) => Cons(start, Cat(Flatten(body), Cons(LoopEnd(ctr), [])))
    case If(test, thn, hasElse, els, _) =>
      var last := Cons(EndIf, []);
      Cons(test, Cat(Flatten(thn), if hasElse then Cons(ElseNz, Cat(Flatten(els), last)) else last))
    case Par(chans, _) => Cat(FlattenChannels(chans), Cons(ParallelEnd, []))
  }

  function FlattenChannels(chans: Channels): seq<Node>
    decreases chans
  {
    match chans
    case NoChannels => []
    case Channel(chan, body, more) => Cons(ParallelStart(chan), Cat(Flatten(body), FlattenChannels(more)))
  }

  // ----- well nested ----------------------------------------------------------------------------------

  predicate LeafNode(n: Node) {
    n.Timed? || n.Rvop? || n.SetVal? || n.IncDly?
  }

  predicate LoopStart(n: Node) {
    n.Sloop? || n.Hloop? || n.Msloop? || n.Rlloop?
  }

  predicate TestNode(n: Node) {
    n.IfZero? || n.IfRt?
  }

  /** Nodes of the right kinds, on a stack that already has `levels` frames; a parallel section has
      channels 1 .. 11, each at most once, and none inside another. */
  predicate Fits(b: Block, levels: nat, par: bool)
    decreases b, 1
  {
    b.Done? || (FrontFits(b, levels, par) && Fits(b.rest, levels, par))
  }

  predicate FrontFits(b: Block, levels: nat, par: bool)
    requires !b.Done?
    decreases b, 0
  {
    match b
    case Leaf(node, _) => LeafNode(node)
    case Loop(start, body, _, _) => LoopStart(start) && levels < MAXLEVEL && Fits(body, levels + 1, par)
    case If(test, thn, hasElse, els, _) => TestNode(test) && Fits(thn, levels, par) && Fits(els, levels, par)
    case Par(chans, _) => par && levels < MAXLEVEL && ChannelsFit(chans, levels + 1, {})
  }

  predicate ChannelsFit(chans: Channels, levels: nat, used: set<int>)
    decreases chans
  {
    match chans
    case NoChannels => true
    case Channel(chan, body, more) =>
      0 < chan < TOTALCH && chan !in used && Fits(body, levels, false) && ChannelsFit(more, levels, used + {chan})
  }

  // ----- where a block lies in a list -------------------------------------------------------------------

  function Size(b: Block): nat
    decreases b, 1
  {
    if b.Done? then 0 else FrontSize(b) + Size(b.rest)
  }

  /** The nodes before b.rest. */
  function FrontSize(b: Block): nat
    requires !b.Done?
    decreases b, 0
  {
    match b
    case Leaf(_, _) => 1
    case Loop(_, body, _, _) => Size(body) + 2
    case If(_, thn, hasElse, els, _) => Size(thn) + (if hasElse then 1 + Size(els) else 0) + 2
    case Par(chans, _) => ChannelsSize(chans) + 1
  }

  function ChannelsSize(chans: Channels): nat
    decreases chans
  {
    match chans
    case NoChannels => 0
    case Channel(_, body, more) => 1 + Size(body) + ChannelsSize(more)
  }

  predicate NodeAt(nodes: seq<Node>, i: nat, n: Node) {
    i < |nodes| && nodes[i] == n
  }

  predicate At(nodes: seq<Node>, i: nat, b: Block)
    decreases b, 1
  {
    b.Done? || (FrontAt(nodes, i, b) && At(nodes, i + FrontSize(b), b.rest))
  }

  predicate FrontAt(nodes: seq<Node>, i: nat, b: Block)
    requires !b.Done?
    decreases b, 0
  {
    match b
    case Leaf(node, _) => NodeAt(nodes, i, node)
    case Loop(start, body, ctr, _) =>
      NodeAt(nodes, i, start) && At(nodes, i + 1, body) && NodeAt(nodes, i + 1 + Size(body), LoopEnd(ctr))
    case If(test, thn, hasElse, els, _) =>
      var j := i + 1 + Size(thn);
      && NodeAt(nodes, i, test) && At(nodes, i + 1, thn)
      && (hasElse ==> NodeAt(nodes, j, ElseNz) && At(nodes, j + 1, els))
      && NodeAt(nodes, if hasElse then j + 1 + Size(els) else j, EndIf)
    case Par(chans, _) => ChannelsAt(nodes, i, chans) && NodeAt(nodes, i + ChannelsSize(chans), ParallelEnd)
  }

  predicate ChannelsAt(nodes: seq<Node>, i: nat, chans: Channels)
    decreases chans
  {
    match chans
    case NoChannels => true
    case Channel(chan, body, more) =>
      NodeAt(nodes, i, ParallelStart(chan)) && At(nodes, i + 1, body) && ChannelsAt(nodes, i + 1 + Size(body), more)
  }

  // ----- what one run leaves ----------------------------------------------------------------------------

  /** The time added to the level the block is on, whether it asked that level to be run again, the
      variables, and the number of turns. */
  datatype Out = Out(time: real, rerun: bool, rt: Vars, steps: nat)

  function Then(a: Out, b: Out): Out {
    Out(a.time + b.time, a.rerun || b.rerun, b.rt, a.steps + b.steps)
  }

  function LeafOut(n: Node, inc: seq<real>, rt: Vars): Out
    requires |inc| == DELAYS
  {
    match n
    case Timed(width) => Out(if width > 0.0 then width else 0.0, false, rt, 1)
    case Rvop(op, a, b, c) =>
      Out(0.0, false, Set(rt, ArithTarget(op, a, b, c), ArithResult(op, Get(rt, a), Get(rt, b))), 1)
    case SetVal(v, x) => Out(0.0, false, Set(rt, v, Nearest(x)), 1)
    case IncDly(v, slot) =>
      if slot >= DELAYS then Out(0.0, false, rt, 1) else Out(Scale(Get(rt, v), inc[slot]), true, rt, 1)
    case _ => Out(0.0, false, rt, 1)
  }

  function AtLeastOne(n: int): (r: int)
    ensures r >= 1
  {
    if n < 1 then 1 else n
  }

  /** The variables and the count with which a loop is entered. */
  function EnterLoop(start: Node, rt: Vars): (r: (Vars, int))
    ensures r.1 >= 1
  {
    match start
    case Sloop(count, ctr) => var n := AtLeastOne(Get(rt, count)); (Set(rt, ctr, n), n)
    case Msloop(count, ctr, x) =>
      var rt1 := Set(Set(rt, count, Nearest(x)), ctr, Nearest(x)); (rt1, AtLeastOne(Get(rt1, count)))
    case Rlloop(k, count, ctr) =>
      var rt1 := Set(rt, count, k);
      var n := AtLeastOne(Get(rt1, count)); (Set(rt1, ctr, n), n)
    case Hloop(count) => (rt, AtLeastOne(Get(rt, count)))
    case _ => (rt, 1)
  }

  function Taken(test: Node, rt: Vars): (bool, Vars) {
    match test
    case IfZero(v) => (Get(rt, v) == 0, rt)
    case IfRt(cmp, a, b, dst) =>
      var val := IfVal(cmp, Get(rt, a), Get(rt, b)); (val != 0, Set(rt, dst, val))
    case _ => (false, rt)
  }

  function Larger(a: real, b: real): real {
    if b > a then b else a
  }

  function Run(b: Block, inc: seq<real>, rt: Vars): Out
    requires |inc| == DELAYS
    decreases b, 2
  {
    if b.Done? then Out(0.0, false, rt, 0)
    else
      var a := FrontOut(b, inc, rt);
      Then(a, Run(b.rest, inc, a.rt))
  }

  function FrontOut(b: Block, inc: seq<real>, rt: Vars): Out
    requires |inc| == DELAYS && !b.Done?
    decreases b, 1
  {
    match b
    case Leaf(node, _) => LeafOut(node, inc, rt)
    case Loop(start, body, ctr, _) => LoopOut(start, body, ctr, inc, rt)
    case If(_, _, _, _, _) => IfOut(b, inc, rt)
    case Par(chans, _) => ChannelsOut(chans, inc, rt, 0.0)
  }

  function LoopOut(start: Node, body: Block, ctr: int, inc: seq<real>, rt: Vars): (r: Out)
    requires |inc| == DELAYS
    ensures !r.rerun
    decreases body, EnterLoop(start, rt).1 + 3
  {
    var (rt1, n) := EnterLoop(start, rt);
    Then(Out(0.0, false, rt1, 1), Passes(body, ctr, n, false, inc, rt1))
  }

  /** One pass stands for all n, unless something in the body asked for every pass. */
  function Passes(body: Block, ctr: int, n: int, again: bool, inc: seq<real>, rt: Vars): (r: Out)
    requires |inc| == DELAYS && n >= 1
    ensures !r.rerun
    decreases body, n + 2
  {
    var p := Run(body, inc, rt);
    if (again || p.rerun) && n > 1 then
      var q := Passes(body, ctr, n - 1, true, inc, Set(p.rt, ctr, n - 1));
      Out(p.time + q.time, false, q.rt, p.steps + 1 + q.steps)
    else Out(Scale(n, p.time), false, p.rt, p.steps + 1)
  }

  function IfOut(b: Block, inc: seq<real>, rt: Vars): Out
    requires |inc| == DELAYS && b.If?
    decreases b, 0
  {
    var (taken, rt1) := Taken(b.test, rt);
    if taken then
      var r := Run(b.thn, inc, rt1); r.(steps := r.steps + 2)
    else if b.hasElse then
      var r := Run(b.els, inc, rt1); r.(steps := r.steps + 2)
    else Out(0.0, false, rt1, 1)
  }

  /** The longest channel, or `longest` when that is longer. */
  function ChannelsOut(chans: Channels, inc: seq<real>, rt: Vars, longest: real): (r: Out)
    requires |inc| == DELAYS
    ensures !r.rerun
    decreases chans, 0
  {
    match chans
    case NoChannels => Out(longest, false, rt, 1)
    case Channel(_, body, more) =>
      var p := Run(body, inc, rt);
      var q := ChannelsOut(more, inc, p.rt, Larger(longest, p.time));
      q.(steps := 1 + p.steps + q.steps)
  }

  // ----- what such a run does to the simulator --------------------------------------------------------

  ghost predicate Idle(s: Sim) {
    s.chan == 0 && s.times == seq(TOTALCH, _ => 0.0)
  }

  /** The simulator past the block. */
  function Past(s: Sim, size: nat, o: Out): (r: Sim)
    requires ValidSim(s)
    ensures ValidSim(r)
  {
    WithTop(s, Top(s).(timer := Top(s).timer + o.time, rerun := Top(s).rerun || o.rerun)).(pc := s.pc + size,
            rt := o.rt)
  }

  lemma PastThen(s: Sim, k: nat, a: Out, l: nat, b: Out)
    requires ValidSim(s)
    ensures Past(Past(s, k, a), l, b) == Past(s, k + l, Then(a, b))
  {
  }

  ghost predicate Ready(nodes: seq<Node>, inc: seq<real>, s: Sim, b: Block, par: bool) {
    && |inc| == DELAYS && ValidSim(s)
    && Fits(b, |s.frames|, par)
    && At(nodes, s.pc, b)
    && (par ==> Idle(s))
  }

  ghost predicate FrontReady(nodes: seq<Node>, inc: seq<real>, s: Sim, b: Block, par: bool) {
    && |inc| == DELAYS && ValidSim(s)
    && !b.Done? && FrontFits(b, |s.frames|, par)
    && FrontAt(nodes, s.pc, b)
    && (par ==> Idle(s))
  }

  /** n turns take s to e. */
  ghost predicate Goes(nodes: seq<Node>, inc: seq<real>, s: Sim, n: nat, e: Sim) {
    |inc| == DELAYS && ValidSim(s) && Turns(nodes, inc, s, n) == e
  }

  lemma GoesThen(nodes: seq<Node>, inc: seq<real>, s: Sim, a: nat, m: Sim, b: nat, e: Sim)
    requires Goes(nodes, inc, s, a, m)
    requires Goes(nodes, inc, m, b, e)
    ensures Goes(nodes, inc, s, a + b, e)
  {
    TurnsSplit(nodes, inc, s, a, b);
  }

  lemma OneTurn(nodes: seq<Node>, inc: seq<real>, s: Sim)
    requires |inc| == DELAYS && ValidSim(s) && Active(nodes, s)
    ensures Goes(nodes, inc, s, 1, Turn(nodes, inc, s))
  {
    hide Turn;
    assert Turns(nodes, inc, Turn(nodes, inc, s), 0) == Turn(nodes, inc, s);
  }

  lemma NoTurn(nodes: seq<Node>, inc: seq<real>, s: Sim)
    requires |inc| == DELAYS && ValidSim(s)
    ensures Goes(nodes, inc, s, 0, s)
  {
  }
}
