// The control-flow graph of optimize.c and the machine that runs it.
module Graphs {
  import opened Options
  import opened Opcodes

  type Ref = Option<nat>

  // struct _BB.  Blocks live in one array indexed by the line they start at, so a pointer to a
  // block is its index.  `start` is None for a line that begins no block.
  datatype Block = Block(start: Ref, len: nat, used: bool,
                         jmp1: Ref, jmp2: Ref, ext: Ref, follow: Ref,
                         next: Ref, pred: seq<nat>)

  const EMPTY := Block(None, 0, false, None, None, None, None, None, [])

  datatype Graph = Graph(code: seq<Op>, bb: seq<Block>)

  datatype Config = Running(b: nat, s: State) | Halted(tr: seq<Event>)

  function Trace(c: Config): seq<Event> {
    if c.Halted? then c.tr else c.s.tr
  }

  function Target(blk: Block, d: Dest): Ref {
    match d
    case Next => blk.follow
    case To1 => blk.jmp1
    case To2 => blk.jmp2
    case ToExt => blk.ext
    case Halt => None
  }

  predicate HasEdge(blk: Block, t: nat) {
    blk.jmp1 == Some(t) || blk.jmp2 == Some(t) || blk.ext == Some(t) || blk.follow == Some(t)
  }

  function Leave(blk: Block, d: Dest, s: State): Config {
    match Target(blk, d)
    case None => Halted(s.tr)
    case Some(t) => Running(t, s)
  }

  function ExecOps(w: World, ops: seq<Op>, blk: Block, s: State): (c: Config)
    ensures c.Running? ==> HasEdge(blk, c.b) && |c.s.tm| == |s.tm|
  {
    if ops == [] then Leave(blk, Next, s)
    else
      var (d, s') := Exec(w, ops[0], s);
      if d.Next? then ExecOps(w, ops[1..], blk, s') else Leave(blk, d, s')
  }

  function Ops(g: Graph, b: nat): seq<Op>
    requires b < |g.bb|
  {
    var blk := g.bb[b];
    if blk.start.Some? && blk.start.value + blk.len <= |g.code|
    then g.code[blk.start.value .. blk.start.value + blk.len] else []
  }

  // One block.
  function Step(w: World, g: Graph, c: Config): Config {
    if c.Running? && c.b < |g.bb| then ExecOps(w, Ops(g, c.b), g.bb[c.b], c.s)
    else Halted(Trace(c))
  }

  function Run(w: World, g: Graph, c: Config, n: nat): Config
    decreases n
  {
    if n == 0 then c else Run(w, g, Step(w, g, c), n - 1)
  }

  // c2 has shown everything c1 has, and has stopped in the same way if c1 has stopped.
  predicate Leq(c1: Config, c2: Config) {
    if c1.Halted? then c1 == c2 else Trace(c1) <= Trace(c2)
  }

  ghost predicate Reaches(w: World, g: Graph, c: Config, goal: Config) {
    exists m: nat :: Leq(goal, Run(w, g, c, m))
  }

  // Everything g1 shows from its entry, g2 shows too.
  ghost predicate Simulates(w: World, g1: Graph, g2: Graph, T: nat, bools: set<nat>) {
    forall s, n: nat :: StateOk(s, T, bools) ==> Reaches(w, g2, Running(0, s), Run(w, g1, Running(0, s), n))
  }

  ghost predicate Equivalent(w: World, g1: Graph, g2: Graph, T: nat, bools: set<nat>) {
    Simulates(w, g1, g2, T, bools) && Simulates(w, g2, g1, T, bools)
  }

  // Every edge of a used block leads to a used block.
  ghost predicate Closed(bb: seq<Block>) {
    forall b: nat, t: nat {:trigger HasEdge(bb[b], t)} ::
      b < |bb| && bb[b].used && HasEdge(bb[b], t) ==> t < |bb| && bb[t].used
  }

  // What has been observed stays.
  lemma {:induction false} ExecOpsShows(w: World, ops: seq<Op>, blk: Block, s: State)
    ensures s.tr <= Trace(ExecOps(w, ops, blk, s))
    decreases |ops|
  {
    if ops != [] {
      ExecShows(w, ops[0], s);
      ExecOpsShows(w, ops[1..], blk, Exec(w, ops[0], s).1);
    }
  }

  lemma {:induction false} RunShows(w: World, g: Graph, c: Config, n: nat)
    ensures Trace(c) <= Trace(Run(w, g, c, n))
    decreases n
  {
    if n > 0 {
      if c.Running? && c.b < |g.bb| { ExecOpsShows(w, Ops(g, c.b), g.bb[c.b], c.s); }
      RunShows(w, g, Step(w, g, c), n - 1);
    }
  }

  lemma RunHalted(w: World, g: Graph, c: Config, n: nat)
    requires c.Halted?
    ensures Run(w, g, c, n) == c
  {
  }

  lemma RunAdd(w: World, g: Graph, c: Config, n: nat, m: nat)
    ensures Run(w, g, c, n + m) == Run(w, g, Run(w, g, c, n), m)
    decreases n
  {
    if n > 0 {
      RunAdd(w, g, Step(w, g, c), n - 1, m);
    }
  }

  lemma LeqTransitive(c1: Config, c2: Config, c3: Config)
    requires Leq(c1, c2) && Leq(c2, c3)
    ensures Leq(c1, c3)
  {
  }

  lemma LeqRun(w: World, g: Graph, c: Config, n: nat)
    ensures Leq(c, Run(w, g, c, n))
  {
    if c.Halted? { RunHalted(w, g, c, n); } else { RunShows(w, g, c, n); }
  }

  lemma SimulatesTransitive(w: World, g1: Graph, g2: Graph, g3: Graph, T: nat, bools: set<nat>)
    requires Simulates(w, g1, g2, T, bools) && Simulates(w, g2, g3, T, bools)
    ensures Simulates(w, g1, g3, T, bools)
  {
    forall s, n: nat | StateOk(s, T, bools)
      ensures Reaches(w, g3, Running(0, s), Run(w, g1, Running(0, s), n))
    {
      var c := Running(0, s);
      assert Reaches(w, g2, c, Run(w, g1, c, n));
      var m: nat :| Leq(Run(w, g1, c, n), Run(w, g2, c, m));
      assert Reaches(w, g3, c, Run(w, g2, c, m));
      var k: nat :| Leq(Run(w, g2, c, m), Run(w, g3, c, k));
      LeqTransitive(Run(w, g1, c, n), Run(w, g2, c, m), Run(w, g3, c, k));
    }
  }

  lemma EquivalentTransitive(w: World, g1: Graph, g2: Graph, g3: Graph, T: nat, bools: set<nat>)
    requires Equivalent(w, g1, g2, T, bools) && Equivalent(w, g2, g3, T, bools)
    ensures Equivalent(w, g1, g3, T, bools)
  {
    SimulatesTransitive(w, g1, g2, g3, T, bools);
    SimulatesTransitive(w, g3, g2, g1, T, bools);
  }

  lemma EquivalentReflexive(w: World, g: Graph, T: nat, bools: set<nat>)
    ensures Equivalent(w, g, g, T, bools)
  {
    forall s, n: nat | StateOk(s, T, bools)
      ensures Reaches(w, g, Running(0, s), Run(w, g, Running(0, s), n))
    {
      assert Leq(Run(w, g, Running(0, s), n), Run(w, g, Running(0, s), n));
    }
  }

  // Equivalent whatever the rest of the world does.
  ghost predicate SameBehaviour(g1: Graph, g2: Graph, T: nat, bools: set<nat>) {
    forall w: World :: Equivalent(w, g1, g2, T, bools)
  }

  lemma SameBehaviourReflexive(g: Graph, T: nat, bools: set<nat>)
    ensures SameBehaviour(g, g, T, bools)
  {
    forall w: World ensures Equivalent(w, g, g, T, bools) {
      EquivalentReflexive(w, g, T, bools);
    }
  }

  lemma SameBehaviourTransitive(g1: Graph, g2: Graph, g3: Graph, T: nat, bools: set<nat>)
    requires SameBehaviour(g1, g2, T, bools) && SameBehaviour(g2, g3, T, bools)
    ensures SameBehaviour(g1, g3, T, bools)
  {
    forall w: World ensures Equivalent(w, g1, g3, T, bools) {
      EquivalentTransitive(w, g1, g2, g3, T, bools);
    }
  }

  // ----- one block of g' stands for one or two blocks of g -----

  ghost predicate Hop(w: World, g: Graph, g': Graph, b: nat, s: State) {
    var a, a' := Step(w, g, Running(b, s)), Step(w, g', Running(b, s));
    a' == a || a' == Step(w, g, a)
  }

  ghost predicate Shortcut(w: World, g: Graph, g': Graph, T: nat, bools: set<nat>) {
    forall b: nat, s :: b < |g'.bb| && g'.bb[b].used && StateOk(s, T, bools) ==> Hop(w, g, g', b, s)
  }

  predicate Entered(g: Graph, c: Config, T: nat, bools: set<nat>) {
    c.Running? ==> c.b < |g.bb| && g.bb[c.b].used && StateOk(c.s, T, bools)
  }

  lemma ExecOpsKeepsStateOk(w: World, ops: seq<Op>, blk: Block, s: State, T: nat, bools: set<nat>)
    requires CodeOk(ops, T, bools) && StateOk(s, T, bools)
    ensures var c := ExecOps(w, ops, blk, s); c.Running? ==> StateOk(c.s, T, bools)
  {
    if ops != [] {
      ExecKeepsStateOk(w, ops[0], s, T, bools);
      assert CodeOk(ops[1..], T, bools);
      ExecOpsKeepsStateOk(w, ops[1..], blk, Exec(w, ops[0], s).1, T, bools);
    }
  }

  lemma StepStaysEntered(w: World, g: Graph, c: Config, T: nat, bools: set<nat>)
    requires Closed(g.bb) && CodeOk(g.code, T, bools) && Entered(g, c, T, bools)
    ensures Entered(g, Step(w, g, c), T, bools)
  {
    if c.Running? {
      assert CodeOk(Ops(g, c.b), T, bools);
      ExecOpsKeepsStateOk(w, Ops(g, c.b), g.bb[c.b], c.s, T, bools);
    }
  }

  // Every run of g' is a run of g that skips some configurations.
  lemma {:induction false} ShortcutBack(w: World, g: Graph, g': Graph, c: Config, n: nat, T: nat, bools: set<nat>)
    returns (m: nat)
    requires Shortcut(w, g, g', T, bools) && Closed(g'.bb) && CodeOk(g'.code, T, bools) && Entered(g', c, T, bools)
    ensures Run(w, g, c, m) == Run(w, g', c, n)
    decreases n
  {
    m := 0;
    if n > 0 {
      var c' := Step(w, g', c);
      StepStaysEntered(w, g', c, T, bools);
      if c.Running? {
        assert Hop(w, g, g', c.b, c.s);
        assert c == Running(c.b, c.s);
      }
      var j := if c' == Step(w, g, c) then 1 else 2;
      assert Run(w, g, c, 1) == Run(w, g, Step(w, g, c), 0);
      assert Run(w, g, c, 2) == Run(w, g, Step(w, g, c), 1) == Step(w, g, Step(w, g, c));
      assert Run(w, g, c, j) == c';
      var k := ShortcutBack(w, g, g', c', n - 1, T, bools);
      RunAdd(w, g, c, j, k);
      m := j + k;
    }
  }

  // And g' keeps up with every run of g.
  lemma {:induction false} ShortcutForth(w: World, g: Graph, g': Graph, c: Config, n: nat, T: nat, bools: set<nat>)
    returns (m: nat)
    requires Shortcut(w, g, g', T, bools) && Closed(g'.bb) && CodeOk(g'.code, T, bools) && Entered(g', c, T, bools)
    ensures Leq(Run(w, g, c, n), Run(w, g', c, m))
    decreases n
  {
    m := 0;
    if n > 0 {
      var c', a := Step(w, g', c), Step(w, g, c);
      StepStaysEntered(w, g', c, T, bools);
      if c.Running? {
        assert Hop(w, g, g', c.b, c.s);
        assert c == Running(c.b, c.s);
      }
      assert Run(w, g', c, 1) == c';
      assert Run(w, g, c, n) == Run(w, g, a, n - 1);
      if c' == a {
        var k := ShortcutForth(w, g, g', c', n - 1, T, bools);
        RunAdd(w, g', c, 1, k);
        m := 1 + k;
      } else if n == 1 {
        LeqRun(w, g, a, 1);
        assert Run(w, g, a, 1) == c';
        m := 1;
      } else {
        var k := ShortcutForth(w, g, g', c', n - 2, T, bools);
        RunAdd(w, g', c, 1, k);
        assert Run(w, g, a, n - 1) == Run(w, g, Step(w, g, a), n - 2);
        m := 1 + k;
      }
    }
  }

  lemma ShortcutEquivalent(w: World, g: Graph, g': Graph, T: nat, bools: set<nat>)
    requires Shortcut(w, g, g', T, bools) && Closed(g'.bb) && CodeOk(g'.code, T, bools)
    requires 0 < |g'.bb| && g'.bb[0].used
    ensures Equivalent(w, g, g', T, bools)
  {
    forall s, n: nat | StateOk(s, T, bools)
      ensures Reaches(w, g', Running(0, s), Run(w, g, Running(0, s), n))
      ensures Reaches(w, g, Running(0, s), Run(w, g', Running(0, s), n))
    {
      var m := ShortcutForth(w, g, g', Running(0, s), n, T, bools);
      var k := ShortcutBack(w, g, g', Running(0, s), n, T, bools);
      assert Leq(Run(w, g', Running(0, s), n), Run(w, g, Running(0, s), k));
    }
  }
}
