/** Evaluation from scratch: what a node is worth by its definition alone. */
module EvalScratch {
  import opened EvalNode
  import opened EvalTree

  /** The nodes, the scopes' children, and a ranking that shows lookups to be acyclic. */
  datatype World = World(nodes: set<Node>, kids: Kids, rank: map<Node, nat>)

  predicate Looks(n: Node, h: seq<Lookup>)
    requires n.def.Computed?
  {
    n.def.step(h).Peek? || n.def.step(h).Member?
  }

  ghost predicate Ranked(w: World)
  {
    w.kids.Values <= w.nodes <= w.rank.Keys && forall n :: n in w.nodes ==> LooksBelow(w, n)
  }

  /** Every lookup, recorded or not, goes to a node of lower rank. */
  ghost predicate LooksBelow(w: World, n: Node)
    requires n in w.rank
  {
    n.def.Computed? ==> forall h: seq<Lookup> :: Looks(n, h) ==> TargetBelow(w, n, n.def.step(h))
  }

  ghost predicate TargetBelow(w: World, n: Node, a: Action)
    requires n in w.rank && (a.Peek? || a.Member?)
  {
    a.name in w.kids ==> w.kids[a.name] in w.rank && w.rank[w.kids[a.name]] < w.rank[n]
  }

  lemma TargetRank(w: World, n: Node, h: seq<Lookup>)
    requires Ranked(w) && n in w.nodes && n.def.Computed? && Looks(n, h)
    ensures n in w.rank
    ensures n.def.step(h).name in w.kids ==>
      var c := w.kids[n.def.step(h).name]; c in w.nodes && c in w.rank && w.rank[c] < w.rank[n]
  {
    assert LooksBelow(w, n) && TargetBelow(w, n, n.def.step(h));
  }

  lemma RankedKids(w: World)
    requires Ranked(w)
    ensures w.kids.Values <= w.nodes
  {}

  /** What each leaf yields. */
  type Env = map<Node, Outcome>

  ghost predicate EnvOk(w: World, env: Env)
  {
    forall n :: n in w.nodes && n.def.Leaf? ==> n in env
  }

  /** A leaf has its current value, or what the stream says. */
  ghost function EnvOf(w: World, g: Graph): (env: Env)
    requires g.Keys == w.nodes
    ensures EnvOk(w, env)
  {
    map n | n in w.nodes && n.def.Leaf? :: if g[n].state == Resolved then Good(g[n].value) else n.def.source
  }

  /** A value instance runs its expression on what its lookups evaluate to. No cached
      result of a value instance is used, and nothing that a struct value remembers. */
  ghost function Scratch(w: World, env: Env, n: Node): Outcome
    requires Ranked(w) && EnvOk(w, env) && n in w.nodes
    decreases w.rank[n], 2, 0
  {
    match n.def
    case Leaf(_) => env[n]
    case Computed(_, _) => ScratchFrom(w, env, n, [])
  }

  ghost function ScratchFrom(w: World, env: Env, n: Node, h: seq<Lookup>): Outcome
    requires Ranked(w) && EnvOk(w, env) && n in w.nodes && n.def.Computed? && |h| <= n.def.bound
    decreases w.rank[n], 1, n.def.bound - |h|
  {
    match Verdict(n, h)
    case Some(o) => o
    case None => ScratchFrom(w, env, n, h + [SeenBy(w, env, n, h)])
  }

  ghost function SeenBy(w: World, env: Env, n: Node, h: seq<Lookup>): Lookup
    requires Ranked(w) && EnvOk(w, env) && n in w.nodes && n.def.Computed? && Looks(n, h)
    decreases w.rank[n], 0, 0
  {
    TargetRank(w, n, h);
    if Blind(n, h) || n.def.step(h).name !in w.kids then Missing
    else AsLookup(Scratch(w, env, w.kids[n.def.step(h).name]))
  }

  /** A member of something that is no struct value. */
  predicate Blind(n: Node, h: seq<Lookup>)
    requires n.def.Computed? && Looks(n, h)
  {
    n.def.step(h).Member? && !ViaOk(h, n.def.step(h).via)
  }

  lemma LeafScratch(w: World, env: Env, n: Node)
    requires Ranked(w) && EnvOk(w, env) && n in w.nodes && n.def.Leaf?
    ensures Scratch(w, env, n) == env[n]
  {}

  lemma ComputedScratch(w: World, env: Env, n: Node)
    requires Ranked(w) && EnvOk(w, env) && n in w.nodes && n.def.Computed?
    ensures Scratch(w, env, n) == ScratchFrom(w, env, n, [])
  {}

  lemma ScratchStep(w: World, env: Env, n: Node, h: seq<Lookup>)
    requires Ranked(w) && EnvOk(w, env) && n in w.nodes && n.def.Computed? && |h| <= n.def.bound
    ensures ScratchFrom(w, env, n, h) ==
            match Verdict(n, h) case Some(o) => o case None => ScratchFrom(w, env, n, h + [SeenBy(w, env, n, h)])
  {
    hide SeenBy, Ranked;
  }

  // ---- Evaluation step by step -----------------------------------------------

  /** Lookup `i` shows what its target evaluates to: null for a failure or no value. There is
      no target where the name is unknown, or where a member is read through a lookup that
      showed no struct value, or one with fewer parents than asked for. */
  ghost predicate ShowsTarget(w: World, env: Env, n: Node, h: seq<Lookup>, i: nat)
    requires Ranked(w) && EnvOk(w, env) && n in w.nodes && n.def.Computed? && i < |h|
  {
    var a := n.def.step(h[..i]);
    (a.Peek? || a.Member?) &&
    if a.name !in w.kids then h[i] == Missing
    else if a.Member? && a.via.Seen? && !(a.via.i < i && StructSeen(h[a.via.i], a.via.up)) then h[i] == Missing
    else
      w.kids[a.name] in w.nodes &&
      var o := Scratch(w, env, w.kids[a.name]);
      h[i] == if o.Bad? || o.v == NoValue then Null else Found(o.v)
  }

  ghost predicate StructSeen(look: Lookup, up: nat)
  {
    look.Found? && look.v.StructValue? && look.v.parents >= up
  }

  /** The lookups that `n` makes, and what they show. */
  ghost predicate Lookups(w: World, env: Env, n: Node, h: seq<Lookup>)
    requires Ranked(w) && EnvOk(w, env) && n in w.nodes && n.def.Computed?
  {
    |h| <= n.def.bound && forall i :: 0 <= i < |h| ==> ShowsTarget(w, env, n, h, i)
  }

  lemma ShowsSeen(w: World, env: Env, n: Node, h: seq<Lookup>, i: nat)
    requires Ranked(w) && EnvOk(w, env) && n in w.nodes && n.def.Computed? && i < |h| && ShowsTarget(w, env, n, h, i)
    ensures Looks(n, h[..i]) && SeenBy(w, env, n, h[..i]) == h[i]
  {
    hide Scratch;
    TargetRank(w, n, h[..i]);
  }

  /** Evaluation makes those lookups, and ends as its expression does behind them. */
  lemma {:induction false} LookupsDecide(w: World, env: Env, n: Node, h: seq<Lookup>, i: nat)
    requires Ranked(w) && EnvOk(w, env) && n in w.nodes && n.def.Computed? && Lookups(w, env, n, h) && i <= |h|
    ensures Scratch(w, env, n) == ScratchFrom(w, env, n, h[..i])
  {
    hide Ranked, SeenBy, ShowsTarget, Scratch;
    if i == 0 {
      ComputedScratch(w, env, n);
    } else {
      LookupsDecide(w, env, n, h, i - 1);
      ShowsSeen(w, env, n, h, i - 1);
      ScratchStep(w, env, n, h[..i - 1]);
      assert h[..i - 1] + [h[i - 1]] == h[..i];
    }
  }

  lemma OutcomeOfLookups(w: World, env: Env, n: Node, h: seq<Lookup>)
    requires Ranked(w) && EnvOk(w, env) && n in w.nodes && n.def.Computed? && Lookups(w, env, n, h)
    ensures var a := n.def.step(h);
            (a.Return? ==> Scratch(w, env, n) == Good(a.v)) && (a.Fail? ==> Scratch(w, env, n) == Bad(Failed(a.msg)))
  {
    hide Ranked, ShowsTarget, Scratch, SeenBy;
    LookupsDecide(w, env, n, h, |h|);
    assert h[..|h|] == h;
    ScratchStep(w, env, n, h);
  }

  /** There always are such lookups, up to the end of the expression or its bound. */
  lemma {:induction false} LookupsExist(w: World, env: Env, n: Node, h: seq<Lookup>) returns (all: seq<Lookup>)
    requires Ranked(w) && EnvOk(w, env) && n in w.nodes && n.def.Computed? && Lookups(w, env, n, h)
    ensures h <= all && Lookups(w, env, n, all) && (n.def.step(all).Return? || n.def.step(all).Fail? || |all| == n.def.bound)
    decreases n.def.bound - |h|
  {
    hide Ranked, Scratch;
    if !Looks(n, h) || |h| == n.def.bound {
      all := h;
    } else {
      TargetRank(w, n, h);
      var h' := h + [SeenBy(w, env, n, h)];
      assert h'[..|h|] == h;
      forall i | 0 <= i < |h'| ensures ShowsTarget(w, env, n, h', i) {
        if i < |h| {
          assert ShowsTarget(w, env, n, h, i) && h'[..i] == h[..i];
        }
      }
      all := LookupsExist(w, env, n, h');
    }
  }

  /** The nodes that the evaluation behind `h` looks up: as members, if `member`, or by bare
      identifier. */
  ghost function LooksFrom(w: World, env: Env, n: Node, h: seq<Lookup>, member: bool): (s: set<Node>)
    requires Ranked(w) && EnvOk(w, env) && n in w.nodes && n.def.Computed? && |h| <= n.def.bound
    decreases n.def.bound - |h|
  {
    match Verdict(n, h)
    case Some(_) => {}
    case None => LookedUp(w, n, h, member) + LooksFrom(w, env, n, h + [SeenBy(w, env, n, h)], member)
  }

  ghost function LookedUp(w: World, n: Node, h: seq<Lookup>, member: bool): set<Node>
    requires n.def.Computed? && Looks(n, h)
  {
    var a := n.def.step(h);
    if a.name in w.kids && a.Member? == member && !Blind(n, h) then {w.kids[a.name]} else {}
  }

  ghost function Reads(w: World, env: Env, n: Node): set<Node>
    requires Ranked(w) && EnvOk(w, env) && n in w.nodes && n.def.Computed?
  {
    LooksFrom(w, env, n, [], true)
  }

  ghost function Peeks(w: World, env: Env, n: Node): set<Node>
    requires Ranked(w) && EnvOk(w, env) && n in w.nodes && n.def.Computed?
  {
    LooksFrom(w, env, n, [], false)
  }

  // ---- The leaves an outcome rests on --------------------------------------

  /** Evaluating `n` looks leaf `c` up, directly or through others. */
  ghost predicate RestsOn(w: World, env: Env, n: Node, c: Node)
    requires Ranked(w) && EnvOk(w, env) && n in w.nodes
    decreases w.rank[n], 2, 0
  {
    match n.def
    case Leaf(_) => n == c
    case Computed(_, _) => RestsFrom(w, env, n, [], c)
  }

  ghost predicate RestsFrom(w: World, env: Env, n: Node, h: seq<Lookup>, c: Node)
    requires Ranked(w) && EnvOk(w, env) && n in w.nodes && n.def.Computed? && |h| <= n.def.bound
    decreases w.rank[n], 1, n.def.bound - |h|
  {
    Verdict(n, h).None? &&
    (RestsNow(w, env, n, h, c) || RestsFrom(w, env, n, h + [SeenBy(w, env, n, h)], c))
  }

  ghost predicate RestsNow(w: World, env: Env, n: Node, h: seq<Lookup>, c: Node)
    requires Ranked(w) && EnvOk(w, env) && n in w.nodes && n.def.Computed? && Looks(n, h)
    decreases w.rank[n], 0, 0
  {
    TargetRank(w, n, h);
    !Blind(n, h) && n.def.step(h).name in w.kids && RestsOn(w, env, w.kids[n.def.step(h).name], c)
  }

  /** All leaves but `c` yield the same. */
  ghost predicate SameBut(w: World, env: Env, env': Env, c: Node)
    requires EnvOk(w, env) && EnvOk(w, env')
  {
    forall n :: n in w.nodes && n.def.Leaf? && n != c ==> env'[n] == env[n]
  }

  /** An outcome that does not rest on a leaf does not change with it. */
  lemma {:induction false} NotResting(w: World, env: Env, env': Env, n: Node, c: Node)
    requires Ranked(w) && EnvOk(w, env) && EnvOk(w, env') && SameBut(w, env, env', c) && n in w.nodes
    requires !RestsOn(w, env, n, c)
    ensures Scratch(w, env', n) == Scratch(w, env, n)
    decreases w.rank[n], 1, 0
  {
    hide ScratchFrom, RestsFrom;
    if n.def.Computed? { NotRestingFrom(w, env, env', n, [], c); }
  }

  lemma {:induction false} NotRestingFrom(w: World, env: Env, env': Env, n: Node, h: seq<Lookup>, c: Node)
    requires Ranked(w) && EnvOk(w, env) && EnvOk(w, env') && SameBut(w, env, env', c) && n in w.nodes
    requires n.def.Computed? && |h| <= n.def.bound && !RestsFrom(w, env, n, h, c)
    ensures ScratchFrom(w, env', n, h) == ScratchFrom(w, env, n, h)
    decreases w.rank[n], 0, n.def.bound - |h|
  {
    hide Ranked, Scratch, RestsOn, SameBut;
    if Verdict(n, h).None? {
      TargetRank(w, n, h);
      var name := n.def.step(h).name;
      if !Blind(n, h) && name in w.kids { NotResting(w, env, env', w.kids[name], c); }
      NotRestingFrom(w, env, env', n, h + [SeenBy(w, env, n, h)], c);
    }
  }
}
