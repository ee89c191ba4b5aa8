/** A discipline of lookups under which caches are always right. */
module EvalDiscipline {
  import opened EvalNode
  import opened EvalTree
  import opened EvalScratch
  import opened EvalTold
  import opened EvalCorrect
  import opened Options

  /** Nodes that no command changes: leaves that are not edited, and value instances that
      look up only such nodes. */
  ghost predicate StableOk(w: World, stable: set<Node>)
  {
    stable <= w.nodes && forall n :: n in stable && n.def.Computed? ==> LooksInto(w, n, stable)
  }

  ghost predicate LooksInto(w: World, n: Node, s: set<Node>)
    requires n.def.Computed?
  {
    forall h: seq<Lookup> :: Looks(n, h) ==> TargetIn(w, n.def.step(h), s)
  }

  ghost predicate TargetIn(w: World, a: Action, s: set<Node>)
    requires a.Peek? || a.Member?
  {
    a.name in w.kids ==> w.kids[a.name] in s
  }

  /** The nodes looked up in a history `f`, from lookup `i` on. */
  ghost function LooksAlong(w: World, n: Node, f: seq<Lookup>, i: nat, member: bool): set<Node>
    requires n.def.Computed? && i <= |f|
    decreases |f| - i
  {
    if i == |f| || Verdict(n, f[..i]).Some? then {}
    else LookedUp(w, n, f[..i], member) + LooksAlong(w, n, f, i + 1, member)
  }

  /** Lookup `i` may show the struct value that an instance keeps: it is of an instance, or of
      a member of such a struct value. */
  ghost predicate OfInstance(w: World, n: Node, f: seq<Lookup>, i: nat)
    requires n.def.Computed? && i < |f|
    decreases i
  {
    var a := n.def.step(f[..i]);
    (a.Peek? || a.Member?) && a.name in w.kids &&
    (w.kids[a.name].def.Computed? || (a.Member? && a.via.Seen? && a.via.i < i && OfInstance(w, n, f, a.via.i)))
  }

  /** `r` is the struct value the expression returns, a parent of it, or one that they remember. */
  ghost predicate Returned(n: Node, f: seq<Lookup>, from: Ref, r: Ref)
    requires n.def.Computed?
    decreases if r.Seen? then r.i + 1 else 0
  {
    r == from ||
    (r.Own? && from.Own? && from.up <= r.up) ||
    (r.Seen? && r.i < |f| && n.def.step(f[..r.i]).Member? &&
     var via := n.def.step(f[..r.i]).via;
     (via.Seen? ==> via.i < r.i) && Returned(n, f, from, via))
  }

  /** What is read through `via` may be remembered beyond the evaluation. */
  ghost predicate Outlives(w: World, n: Node, f: seq<Lookup>, via: Ref)
    requires n.def.Computed?
  {
    (via.Seen? && via.i < |f| && OfInstance(w, n, f, via.i)) ||
    (n.def.step(f).Return? && n.def.step(f).from.Some? && Returned(n, f, n.def.step(f).from.value, via))
  }

  /** Whatever its lookups show: every node that an expression looks up by its bare identifier
      is stable or also read as a member in the same evaluation, and every member that it
      reads through the struct value of an instance, or through one that it returns, is stable. */
  ghost predicate Disciplined(w: World, stable: set<Node>)
  {
    StableOk(w, stable) && forall n :: n in w.nodes && n.def.Computed? ==> LooksOk(w, n, stable)
  }

  ghost predicate LooksOk(w: World, n: Node, stable: set<Node>)
    requires n.def.Computed?
  {
    forall f: seq<Lookup> :: Verdict(n, f).Some? ==> PeeksOk(w, n, f, stable) && MembersOk(w, n, f, stable)
  }

  ghost predicate PeeksOk(w: World, n: Node, f: seq<Lookup>, stable: set<Node>)
    requires n.def.Computed?
  {
    LooksAlong(w, n, f, 0, false) <= LooksAlong(w, n, f, 0, true) + stable
  }

  ghost predicate MembersOk(w: World, n: Node, f: seq<Lookup>, stable: set<Node>)
    requires n.def.Computed?
  {
    forall j :: 0 <= j < |f| ==> MemberOk(w, n, f, j, stable)
  }

  ghost predicate MemberOk(w: World, n: Node, f: seq<Lookup>, j: nat, stable: set<Node>)
    requires n.def.Computed? && j < |f|
  {
    var a := n.def.step(f[..j]);
    a.Member? && a.name in w.kids && Outlives(w, n, f, a.via) ==> w.kids[a.name] in stable
  }

  // ---- Stable nodes ------------------------------------------------------------

  /** Stable leaves hold what the stream says. */
  ghost predicate Pristine(w: World, g: Graph, stable: set<Node>)
    requires g.Keys == w.nodes
  {
    forall n :: n in stable && n in w.nodes && n.def.Leaf? ==> EnvOf(w, g)[n] == n.def.source
  }

  ghost predicate AgreeOn(w: World, env: Env, env': Env, s: set<Node>)
    requires EnvOk(w, env) && EnvOk(w, env')
  {
    forall n :: n in s && n in w.nodes && n.def.Leaf? ==> env'[n] == env[n]
  }

  lemma {:induction false} StableSame(w: World, stable: set<Node>, env: Env, env': Env, n: Node)
    requires Ranked(w) && StableOk(w, stable) && EnvOk(w, env) && EnvOk(w, env') && AgreeOn(w, env, env', stable)
    requires n in stable
    ensures Scratch(w, env', n) == Scratch(w, env, n)
    decreases w.rank[n], 1, 0
  {
    hide ScratchFrom;
    if n.def.Computed? { StableSameFrom(w, stable, env, env', n, []); }
  }

  lemma {:induction false} StableSameFrom(w: World, stable: set<Node>, env: Env, env': Env, n: Node, h: seq<Lookup>)
    requires Ranked(w) && StableOk(w, stable) && EnvOk(w, env) && EnvOk(w, env') && AgreeOn(w, env, env', stable)
    requires n in stable && n.def.Computed? && |h| <= n.def.bound
    ensures ScratchFrom(w, env', n, h) == ScratchFrom(w, env, n, h)
    decreases w.rank[n], 0, n.def.bound - |h|
  {
    hide Ranked, Scratch, AgreeOn;
    if Verdict(n, h).None? {
      assert LooksInto(w, n, stable) && TargetIn(w, n.def.step(h), stable);
      TargetRank(w, n, h);
      var name := n.def.step(h).name;
      if name in w.kids { StableSame(w, stable, env, env', w.kids[name]); }
      StableSameFrom(w, stable, env, env', n, h + [SeenBy(w, env, n, h)]);
    }
  }

  // ---- Histories ---------------------------------------------------------------

  /** The history of the evaluation behind `h`. */
  ghost function Played(w: World, env: Env, n: Node, h: seq<Lookup>): (f: seq<Lookup>)
    requires Ranked(w) && EnvOk(w, env) && n in w.nodes && n.def.Computed? && |h| <= n.def.bound
    ensures h <= f && Verdict(n, f).Some?
    decreases n.def.bound - |h|
  {
    match Verdict(n, h)
    case Some(_) => h
    case None => Played(w, env, n, h + [SeenBy(w, env, n, h)])
  }

  lemma {:induction false} LooksPlayed(w: World, env: Env, n: Node, h: seq<Lookup>, member: bool)
    requires Ranked(w) && EnvOk(w, env) && n in w.nodes && n.def.Computed? && |h| <= n.def.bound
    ensures LooksFrom(w, env, n, h, member) == LooksAlong(w, n, Played(w, env, n, h), |h|, member)
    decreases n.def.bound - |h|
  {
    hide Ranked, SeenBy, LookedUp;
    var f := Played(w, env, n, h);
    assert f[..|h|] == h;
    if Verdict(n, h).None? {
      LooksPlayed(w, env, n, h + [SeenBy(w, env, n, h)], member);
    }
  }

  lemma PeeksCovered(w: World, env: Env, n: Node, stable: set<Node>)
    requires Ranked(w) && EnvOk(w, env) && n in w.nodes && n.def.Computed? && Disciplined(w, stable)
    ensures Peeks(w, env, n) <= Reads(w, env, n) + stable
  {
    hide Ranked, LooksAlong, LooksFrom;
    LooksPlayed(w, env, n, [], false);
    LooksPlayed(w, env, n, [], true);
    assert LooksOk(w, n, stable);
    assert Verdict(n, Played(w, env, n, [])).Some?;
  }

  lemma {:induction false} OfInstancePrefix(w: World, n: Node, h: seq<Lookup>, f: seq<Lookup>, i: nat)
    requires n.def.Computed? && i < |h| && h <= f
    ensures OfInstance(w, n, f, i) <==> OfInstance(w, n, h, i)
    decreases i
  {
    assert f[..i] == h[..i];
    var a := n.def.step(h[..i]);
    if a.Member? && a.via.Seen? && a.via.i < i { OfInstancePrefix(w, n, h, f, a.via.i); }
  }

  lemma {:induction false} KeptIsReturned(n: Node, h: seq<Lookup>, seen: seq<Option<Obj>>, from: Ref, r: Ref)
    requires n.def.Computed? && |h| == |seen| && KeptRef(n, h, seen, from, r)
    ensures Returned(n, h, from, r)
    decreases if r.Seen? then r.i + 1 else 0
  {
    if r != from && !r.Own? { KeptIsReturned(n, h, seen, from, n.def.step(h[..r.i]).via); }
  }

  // ---- Right edges and memories ----------------------------------------------------

  /** The deps of a settled value instance are the nodes it reads as members: all that are not
      stable, and no other nodes. They are settled. */
  ghost predicate DepsRight(w: World, g: Graph, env: Env, stable: set<Node>, n: Node)
    requires Ranked(w) && EnvOk(w, env) && n in w.nodes && n in g && n.def.Computed?
  {
    Reads(w, env, n) - stable <= g[n].deps <= Reads(w, env, n) && DepsSettled(g, n)
  }

  ghost predicate DepsSettled(g: Graph, n: Node)
    requires n in g
  {
    forall d :: d in g[n].deps ==> d in g && Settled(g[d])
  }

  ghost predicate DepsOk(w: World, g: Graph, env: Env, stable: set<Node>)
    requires Ranked(w) && EnvOk(w, env) && g.Keys == w.nodes
  {
    forall n :: n in w.nodes && n.def.Computed? && Settled(g[n]) ==> DepsRight(w, g, env, stable, n)
  }

  /** Struct values remember stable members only. */
  ghost predicate MemoryStable(w: World, mem: Memory, stable: set<Node>)
  {
    forall o, name :: Entry(mem, o, name).Some? ==> NameStable(w, name, stable)
  }

  ghost predicate NameStable(w: World, name: Name, stable: set<Node>)
  {
    name in w.kids && w.kids[name] in stable
  }

  ghost predicate Fine(w: World, s: Store, env: Env, stable: set<Node>)
    requires Ranked(w) && EnvOk(w, env) && s.g.Keys == w.nodes
  {
    DepsOk(w, s.g, env, stable) && MemoryStable(w, s.mem, stable)
  }

  /** Everything that the discipline keeps. */
  ghost predicate Consistent(w: World, s: Store, stable: set<Node>)
    requires Ranked(w) && s.g.Keys == w.nodes
  {
    AllRight(w, s) && Fine(w, s, EnvOf(w, s.g), stable) && Pristine(w, s.g, stable)
  }

  // ---- Resolution keeps edges and memories right ---------------------------------

  /** From a right store under the discipline, with edges and memories right so far. */
  ghost predicate GoesWell(w: World, s0: Store, s: Store, stable: set<Node>)
  {
    OnTheWay(w, s0, s) && Ranked(w) && s0.g.Keys == s.g.Keys == w.nodes && w.kids.Values <= w.nodes &&
    AllRight(w, s0) && Disciplined(w, stable) && Fine(w, s, EnvOf(w, s0.g), stable)
  }

  lemma {:induction false} ResolveFine(w: World, s0: Store, s: Store, stack: seq<Node>, n: Node, stable: set<Node>)
    requires GoesWell(w, s0, s, stable) && WellFormed(s.g, stack) && StackInside(s.g, stack) && n in s.g
    requires OthersAbove(w, s.g, n) && s.g[n].state != Resolving
    ensures GoesWell(w, s0, ResolveF(w.kids, s, stack, n), stable)
    decreases Waiting(s.g), 0, 0
  {
    hide RunF, Ranked, Tell, TellFrom, WellFormed, OnTheWay, AllRight, Disciplined, Fine, Settled;
    ResolveTells(w, s0, s, stack, n);
    var s' := ResolveF(w.kids, s, stack, n);
    WayNodes(w, s0, s');
    if s.g[n].state == Unresolved {
      UnresolvedUnsettled(s.g[n]);
      WayUnsettled(w, s0, s, n);
      if n.def.Leaf? {
        ResolveCases(w.kids, s, stack, n);
        StoredLeafFine(w, s, EnvOf(w, s0.g), stable, n);
      } else {
        BeginForm(s.g, stack, n);
        StartedOnTheWay(w, s0, s, n) by { WayOthers(w, s0, s, n); }
        ResolveStarts(w.kids, s, stack, n);
        ComputedTold(w, s0, n);
        StartedFine(w, s0, s, stack, n, stable);
        RunFine(w, s0, Started(s, n), stack, n, s.mem.clock, [], [], [], stable);
      }
    } else {
      ResolveCases(w.kids, s, stack, n);
    }
  }

  lemma WayUnsettled(w: World, s0: Store, s: Store, n: Node)
    requires OnTheWay(w, s0, s) && n in s.g && !Settled(s.g[n])
    ensures n in s0.g && !Settled(s0.g[n])
  {
    hide Ranked, AsTold;
  }

  lemma WayOthers(w: World, s0: Store, s: Store, n: Node)
    requires OnTheWay(w, s0, s) && n in s.g && s.g[n].state == Unresolved
    ensures s.g[n].obj == None
  {
    hide Ranked, AsTold;
  }

  /** Settled value instances keep their deps, and settled nodes stay settled. */
  lemma DepsOkKept(w: World, g: Graph, h: Graph, env: Env, stable: set<Node>)
    requires Ranked(w) && EnvOk(w, env) && g.Keys == h.Keys == w.nodes && DepsOk(w, g, env, stable)
    requires forall m :: m in g && m.def.Computed? && Settled(h[m]) ==> Settled(g[m]) && h[m].deps == g[m].deps
    requires forall m :: m in g && Settled(g[m]) ==> Settled(h[m])
    ensures DepsOk(w, h, env, stable)
  {
    hide Ranked, LooksFrom, Settled;
    forall m | m in w.nodes && m.def.Computed? && Settled(h[m]) ensures DepsRight(w, h, env, stable, m) {
      assert DepsRight(w, g, env, stable, m);
      forall d | d in h[m].deps ensures d in h && Settled(h[d]) {}
    }
  }

  lemma StoredLeafFine(w: World, s: Store, env: Env, stable: set<Node>, n: Node)
    requires Ranked(w) && EnvOk(w, env) && s.g.Keys == w.nodes && Fine(w, s, env, stable)
    requires n in s.g && n.def.Leaf? && s.g[n].state == Unresolved
    ensures Fine(w, s.(g := Stored(s.g, n, n.def.source)), env, stable)
  {
    hide Ranked, DepsOk, MemoryStable;
    DepsOkKept(w, s.g, Stored(s.g, n, n.def.source), env, stable);
  }

  /** The members read so far and those still to come are the reads of `n`. */
  ghost predicate DepsSoFar(w: World, g: Graph, env: Env, stable: set<Node>, n: Node, h: seq<Lookup>)
    requires Ranked(w) && EnvOk(w, env) && n in w.nodes && n in g && n.def.Computed? && |h| <= n.def.bound
  {
    Reads(w, env, n) - stable <= g[n].deps + LooksFrom(w, env, n, h, true) <= Reads(w, env, n) && DepsSettled(g, n)
  }

  /** Shared struct values are those of instances. */
  ghost predicate SeenOfInstances(w: World, n: Node, h: seq<Lookup>, seen: seq<Option<Obj>>)
    requires n.def.Computed? && |h| == |seen|
  {
    forall i :: 0 <= i < |seen| && seen[i].Some? ==> OfInstance(w, n, h, i)
  }

  ghost predicate RunsWell(w: World, s0: Store, s: Store, stack0: seq<Node>, n: Node, run: nat, h: seq<Lookup>, seen: seq<Option<Obj>>, told: seq<Option<Obj>>, stable: set<Node>)
  {
    && GoesWell(w, s0, s, stable) && Running(w, s0, s, stack0, n, run, h, seen, told)
    && n in w.nodes && n.def.Computed? && |h| == |seen| == |told| <= n.def.bound
    && WellFormed(s.g, stack0 + [n]) && StackInside(s.g, stack0 + [n])
    && DepsSoFar(w, s.g, EnvOf(w, s0.g), stable, n, h) && SeenOfInstances(w, n, h, seen) && HistoryNamed(w, n, h)
  }

  lemma StartedFine(w: World, s0: Store, s: Store, stack: seq<Node>, n: Node, stable: set<Node>)
    requires GoesWell(w, s0, s, stable) && WellFormed(s.g, stack) && n in s.g && s.g[n].state == Unresolved && n.def.Computed?
    requires n !in stack && WellFormed(Started(s, n).g, stack + [n]) && StackInside(Started(s, n).g, stack + [n])
    requires OnTheWay(w, s0, Started(s, n)) && OthersAbove(w, Started(s, n).g, n)
    ensures RunsWell(w, s0, Started(s, n), stack, n, s.mem.clock, [], [], [], stable)
  {
    hide Ranked, LooksFrom, AllRight, Disciplined, OnTheWay, DepsOk;
    var s1, env := Started(s, n), EnvOf(w, s0.g);
    assert s.g[n].deps == {};
    DepsOkKept(w, s.g, s1.g, env, stable);
    forall o, name | Entry(s1.mem, o, name).Some? ensures NameStable(w, name, stable) {
      assert Entry(s.mem, o, name).Some?;
    }
    assert s0.mem.clock <= s.mem.clock by { WayClock(w, s0, s); }
  }

  lemma WayClock(w: World, s0: Store, s: Store)
    requires OnTheWay(w, s0, s)
    ensures s0.mem.clock <= s.mem.clock
  {
    hide Ranked, MemoryAsTold, MemoryOk;
  }

  lemma {:induction false} RunFine(w: World, s0: Store, s: Store, stack0: seq<Node>, n: Node, run: nat, h: seq<Lookup>, seen: seq<Option<Obj>>, told: seq<Option<Obj>>, stable: set<Node>)
    requires RunsWell(w, s0, s, stack0, n, run, h, seen, told, stable)
    requires TellFrom(w, s0, n, h, told) == Tell(w, s0, n)
    ensures GoesWell(w, s0, RunF(w.kids, s, stack0 + [n], n, run, h, seen), stable)
    decreases Waiting(s.g), 4, n.def.bound - |h|
  {
    hide RunsWell, GoesWell, Running, Ranked, Tell, WellFormed, LookF, Finished, TellLook, OnTheWay;
    RunsWellMeans(w, s0, s, stack0, n, run, h, seen, told, stable);
    match Verdict(n, h) {
      case Some(o) =>
        RunTells(w, s0, s, stack0, n, run, h, seen, told);
        FinishFine(w, s0, s, stack0, n, run, h, seen, told, stable, o);
      case None =>
        var (sight, s2) := LookF(w.kids, s, stack0 + [n], n.def.step(h), run, h, seen);
        LookFine(w, s0, s, stack0, n, run, h, seen, told, stable);
        var t := TellLook(w, s0, n, h, told);
        LookTells(w, s0, s, stack0, n, run, h, seen, told);
        RunFine(w, s0, s2, stack0, n, run, h + [sight.look], seen + [sight.obj], told + [t.obj], stable);
    }
  }

  lemma RunsWellMeans(w: World, s0: Store, s: Store, stack0: seq<Node>, n: Node, run: nat, h: seq<Lookup>, seen: seq<Option<Obj>>, told: seq<Option<Obj>>, stable: set<Node>)
    requires RunsWell(w, s0, s, stack0, n, run, h, seen, told, stable)
    ensures GoesWell(w, s0, s, stable) && Running(w, s0, s, stack0, n, run, h, seen, told)
    ensures Ranked(w) && s0.g.Keys == s.g.Keys == w.nodes && w.kids.Values <= w.nodes && n in w.nodes && n.def.Computed?
    ensures |h| == |seen| == |told| <= n.def.bound && AllRight(w, s0)
    ensures WellFormed(s.g, stack0 + [n]) && StackInside(s.g, stack0 + [n])
  {
    hide Ranked, WellFormed, Running, AllRight, Disciplined, Fine, OnTheWay;
  }

  lemma FinishFine(w: World, s0: Store, s: Store, stack0: seq<Node>, n: Node, run: nat, h: seq<Lookup>, seen: seq<Option<Obj>>, told: seq<Option<Obj>>, stable: set<Node>, o: Outcome)
    requires RunsWell(w, s0, s, stack0, n, run, h, seen, told, stable) && Verdict(n, h) == Some(o)
    requires OnTheWay(w, s0, Finished(s, n, run, h, seen, o))
    ensures GoesWell(w, s0, Finished(s, n, run, h, seen, o), stable)
  {
    hide Ranked, WellFormed, Running, AllRight, Disciplined, OnTheWay, Published, Finished, MemoryStable, LooksAlong;
    var s', env := Finished(s, n, run, h, seen, o), EnvOf(w, s0.g);
    FinishedSettles(s, n, run, h, seen, o);
    DepsDone(w, s.g, env, stable, n, h);
    forall m | m in w.nodes && m.def.Computed? && Settled(s'.g[m]) ensures DepsRight(w, s'.g, env, stable, m) {
      assert DepsRight(w, s.g, env, stable, m);
      forall d | d in s'.g[m].deps ensures d in s'.g && Settled(s'.g[d]) {}
    }
    FinishedStable(w, s, n, run, h, seen, stable, o);
  }

  lemma DepsDone(w: World, g: Graph, env: Env, stable: set<Node>, n: Node, h: seq<Lookup>)
    requires Ranked(w) && EnvOk(w, env) && n in w.nodes && n in g && n.def.Computed? && |h| <= n.def.bound
    requires DepsSoFar(w, g, env, stable, n, h) && Verdict(n, h).Some?
    ensures DepsRight(w, g, env, stable, n)
  {
    hide Ranked;
  }

  lemma FinishedStable(w: World, s: Store, n: Node, run: nat, h: seq<Lookup>, seen: seq<Option<Obj>>, stable: set<Node>, o: Outcome)
    requires n in s.g && n in w.nodes && n.def.Computed? && |h| == |seen| && Verdict(n, h) == Some(o)
    requires MemoryStable(w, s.mem, stable) && Disciplined(w, stable) && HistoryNamed(w, n, h)
    ensures MemoryStable(w, Finished(s, n, run, h, seen, o).mem, stable)
  {
    hide Published, Entries, KeptRef, PlaceOf, StableOk, PeeksOk;
    var a := n.def.step(h);
    if a.Return? {
      var mem' := Published(s.mem, n, run, h, seen, a.from);
      forall o', name | Entry(mem', o', name).Some? ensures NameStable(w, name, stable) {
        PublishedEntry(s.mem, n, run, h, seen, a.from, o', name);
        if Entry(mem', o', name) == Entry(s.mem, o', name) {
          assert Entry(s.mem, o', name).Some?;
        } else {
          var j :| 0 <= j < |h| && FoundThrough(n, h, o'.ref, j) && n.def.step(h[..j]).name == name &&
                   Entry(mem', o', name).value == Held(h[j].v, PlaceOf(run, h, seen, j));
          KeptIsReturned(n, h, seen, a.from.value, o'.ref);
          assert LooksOk(w, n, stable) && MembersOk(w, n, h, stable) && MemberOk(w, n, h, j, stable);
          assert FoundNamed(w, n, h, j);
        }
      }
    }
  }

  /** Found members are children. */
  ghost predicate HistoryNamed(w: World, n: Node, h: seq<Lookup>)
    requires n.def.Computed?
  {
    forall j :: 0 <= j < |h| ==> FoundNamed(w, n, h, j)
  }

  ghost predicate FoundNamed(w: World, n: Node, h: seq<Lookup>, j: nat)
    requires n.def.Computed? && j < |h|
  {
    n.def.step(h[..j]).Member? && h[j].Found? ==> n.def.step(h[..j]).name in w.kids
  }

  /** One lookup keeps edges and memories right. */
  lemma {:induction false} LookFine(w: World, s0: Store, s: Store, stack0: seq<Node>, n: Node, run: nat, h: seq<Lookup>, seen: seq<Option<Obj>>, told: seq<Option<Obj>>, stable: set<Node>)
    requires RunsWell(w, s0, s, stack0, n, run, h, seen, told, stable) && Verdict(n, h).None?
    ensures var (sight, s2) := LookF(w.kids, s, stack0 + [n], n.def.step(h), run, h, seen);
            var t := TellLook(w, s0, n, h, told);
            RunsWell(w, s0, s2, stack0, n, run, h + [sight.look], seen + [sight.obj], told + [t.obj], stable)
    decreases Waiting(s.g), 3, 0
  {
    hide RunsWell, GoesWell, Running, Ranked, Tell, WellFormed, TellLook, OnTheWay, ChildF, MemberF, AllRight;
    RunsWellMeans(w, s0, s, stack0, n, run, h, seen, told, stable);
    var stack, a := stack0 + [n], n.def.step(h);
    var (sight, s2) := LookF(w.kids, s, stack, a, run, h, seen);
    LookTells(w, s0, s, stack0, n, run, h, seen, told);
    TellsLook(w, s0, n, h, told);
    TargetRank(w, n, h);
    if Blind(n, h) {
      SoFar(w, s0, s, stack0, n, run, h, seen, told, stable);
      GoesOn(w, s0, s, s, stack0, n, run, h, seen, told, stable, sight);
    } else if a.Peek? {
      PeekFine(w, s0, s, stack0, n, run, h, seen, told, stable);
    } else if Remembered(s.mem, SharedAt(seen, a.via), a.name).Some? {
      HitFine(w, s0, s, stack0, n, run, h, seen, told, stable);
    } else {
      MissFine(w, s0, s, stack0, n, run, h, seen, told, stable);
    }
  }

  /** From one point of an evaluation to the next. */
  lemma GoesOn(w: World, s0: Store, s: Store, s2: Store, stack0: seq<Node>, n: Node, run: nat, h: seq<Lookup>, seen: seq<Option<Obj>>, told: seq<Option<Obj>>, stable: set<Node>, sight: Sight)
    requires RunsWell(w, s0, s, stack0, n, run, h, seen, told, stable) && Verdict(n, h).None?
    requires sight.look == SeenBy(w, EnvOf(w, s0.g), n, h)
    requires var t := TellLook(w, s0, n, h, told);
             Running(w, s0, s2, stack0, n, run, h + [sight.look], seen + [sight.obj], told + [t.obj])
    requires Fine(w, s2, EnvOf(w, s0.g), stable)
    requires s.g[n].deps <= s2.g[n].deps <= s.g[n].deps + LookedUp(w, n, h, true)
    requires LookedUp(w, n, h, true) - stable <= s2.g[n].deps
    requires forall d :: d in s2.g[n].deps ==> d in s2.g && Settled(s2.g[d])
    requires sight.obj.Some? ==> OfInstance(w, n, h + [sight.look], |h|)
    ensures var t := TellLook(w, s0, n, h, told);
            RunsWell(w, s0, s2, stack0, n, run, h + [sight.look], seen + [sight.obj], told + [t.obj], stable)
  {
    hide Ranked, Tell, TellLook, WellFormed, SeenBy, AllRight, Disciplined, Fine, OnTheWay, Settled, OfInstance, Running;
    var h', seen', env := h + [sight.look], seen + [sight.obj], EnvOf(w, s0.g);
    var t := TellLook(w, s0, n, h, told);
    RunningMeans(w, s0, s2, stack0, n, run, h', seen', told + [t.obj]);
    RunningStore(w, s0, s2, stack0, n, run, h', seen', told + [t.obj]);
    forall i | 0 <= i < |seen'| && seen'[i].Some? ensures OfInstance(w, n, h', i) {
      if i < |h| { OfInstancePrefix(w, n, h, h', i); }
    }
    forall j | 0 <= j < |h'| ensures FoundNamed(w, n, h', j) {
      assert h'[..j] == h[..j];
      if j < |h| { assert FoundNamed(w, n, h, j); } else { FoundChild(w, env, n, h); }
    }
  }

  lemma FoundChild(w: World, env: Env, n: Node, h: seq<Lookup>)
    requires Ranked(w) && EnvOk(w, env) && n in w.nodes && n.def.Computed? && Looks(n, h)
    ensures SeenBy(w, env, n, h).Found? ==> n.def.step(h).name in w.kids
  {
    hide Ranked, Scratch;
  }

  lemma SettledObj(s: Store, c: Node)
    requires StoreOk(s) && c in s.g
    ensures s.g[c].obj.Some? ==> c.def.Computed?
  {
    hide MemoryOk;
  }

  lemma PeekFine(w: World, s0: Store, s: Store, stack0: seq<Node>, n: Node, run: nat, h: seq<Lookup>, seen: seq<Option<Obj>>, told: seq<Option<Obj>>, stable: set<Node>)
    requires RunsWell(w, s0, s, stack0, n, run, h, seen, told, stable) && Verdict(n, h).None?
    requires n.def.step(h).Peek?
    ensures var (sight, s2) := LookF(w.kids, s, stack0 + [n], n.def.step(h), run, h, seen);
            var t := TellLook(w, s0, n, h, told);
            RunsWell(w, s0, s2, stack0, n, run, h + [sight.look], seen + [sight.obj], told + [t.obj], stable)
    decreases Waiting(s.g), 2, 0
  {
    hide RunsWell, GoesWell, Running, Ranked, Tell, WellFormed, TellLook, OnTheWay, ChildF, AllRight, Fine, Settled, SeenBy;
    RunsWellMeans(w, s0, s, stack0, n, run, h, seen, told, stable);
    var stack, a := stack0 + [n], n.def.step(h);
    var (sight, s2) := ChildF(w.kids, s, stack, a.name, false);
    LookTells(w, s0, s, stack0, n, run, h, seen, told);
    TellsLook(w, s0, n, h, told);
    TargetRank(w, n, h);
    SoFar(w, s0, s, stack0, n, run, h, seen, told, stable);
    RunningMeans(w, s0, s, stack0, n, run, h, seen, told);
    if a.name in w.kids {
      ChildFine(w, s0, s, stack0, n, a.name, false, stable) by { RunningStore(w, s0, s, stack0, n, run, h, seen, told); }
      InstanceShown(w, n, h, sight);
    } else {
      NoChild(w.kids, s, stack, a.name, false);
    }
    GoesOn(w, s0, s, s2, stack0, n, run, h, seen, told, stable, sight);
  }

  /** What RunsWell says of edges and memories. */
  lemma SoFar(w: World, s0: Store, s: Store, stack0: seq<Node>, n: Node, run: nat, h: seq<Lookup>, seen: seq<Option<Obj>>, told: seq<Option<Obj>>, stable: set<Node>)
    requires RunsWell(w, s0, s, stack0, n, run, h, seen, told, stable)
    ensures Fine(w, s, EnvOf(w, s0.g), stable) && Disciplined(w, stable) && MemoryStable(w, s.mem, stable)
    ensures DepsSettled(s.g, n) && SeenOfInstances(w, n, h, seen)
  {
    hide Ranked, WellFormed, Running, AllRight, Disciplined, OnTheWay, DepsOk, MemoryStable;
  }

  lemma InstanceShown(w: World, n: Node, h: seq<Lookup>, sight: Sight)
    requires n.def.Computed? && Looks(n, h) && n.def.step(h).name in w.kids
    ensures w.kids[n.def.step(h).name].def.Computed? ==> OfInstance(w, n, h + [sight.look], |h|)
  {
    assert (h + [sight.look])[..|h|] == h;
  }

  /** What is remembered is stable, and needs no edge. */
  lemma HitFine(w: World, s0: Store, s: Store, stack0: seq<Node>, n: Node, run: nat, h: seq<Lookup>, seen: seq<Option<Obj>>, told: seq<Option<Obj>>, stable: set<Node>)
    requires RunsWell(w, s0, s, stack0, n, run, h, seen, told, stable) && Verdict(n, h).None?
    requires n.def.step(h).Member? && ViaOk(h, n.def.step(h).via)
    requires Remembered(s.mem, SharedAt(seen, n.def.step(h).via), n.def.step(h).name).Some?
    ensures var (sight, s2) := LookF(w.kids, s, stack0 + [n], n.def.step(h), run, h, seen);
            var t := TellLook(w, s0, n, h, told);
            RunsWell(w, s0, s2, stack0, n, run, h + [sight.look], seen + [sight.obj], told + [t.obj], stable)
  {
    hide RunsWell, GoesWell, Running, Ranked, Tell, WellFormed, TellLook, OnTheWay, AllRight, Fine, Settled, SeenBy, Disciplined;
    RunsWellMeans(w, s0, s, stack0, n, run, h, seen, told, stable);
    var a := n.def.step(h);
    var o := SharedAt(seen, a.via).value;
    var held := Entry(s.mem, o, a.name).value;
    LookTells(w, s0, s, stack0, n, run, h, seen, told);
    TellsLook(w, s0, n, h, told);
    SoFar(w, s0, s, stack0, n, run, h, seen, told, stable);
    assert Entry(s.mem, o, a.name).Some? && NameStable(w, a.name, stable);
    ThroughInstance(w, n, h, Sight(Found(held.value), held.obj), seen);
    GoesOn(w, s0, s, s, stack0, n, run, h, seen, told, stable, Sight(Found(held.value), held.obj));
  }

  lemma ThroughInstance(w: World, n: Node, h: seq<Lookup>, sight: Sight, seen: seq<Option<Obj>>)
    requires n.def.Computed? && |h| == |seen| && n.def.step(h).Member? && n.def.step(h).name in w.kids
    requires SeenOfInstances(w, n, h, seen) && SharedAt(seen, n.def.step(h).via).Some?
    ensures OfInstance(w, n, h + [sight.look], |h|)
    ensures n.def.step(h).via.Seen? && n.def.step(h).via.i < |h| && OfInstance(w, n, h, n.def.step(h).via.i)
  {
    assert (h + [sight.look])[..|h|] == h;
    OfInstancePrefix(w, n, h, h + [sight.look], n.def.step(h).via.i);
  }

  /** A member that is not remembered is resolved with an edge; if it is remembered then, it
      is stable. */
  lemma MissFine(w: World, s0: Store, s: Store, stack0: seq<Node>, n: Node, run: nat, h: seq<Lookup>, seen: seq<Option<Obj>>, told: seq<Option<Obj>>, stable: set<Node>)
    requires RunsWell(w, s0, s, stack0, n, run, h, seen, told, stable) && Verdict(n, h).None?
    requires n.def.step(h).Member? && ViaOk(h, n.def.step(h).via)
    requires Remembered(s.mem, SharedAt(seen, n.def.step(h).via), n.def.step(h).name).None?
    ensures var (sight, s2) := LookF(w.kids, s, stack0 + [n], n.def.step(h), run, h, seen);
            var t := TellLook(w, s0, n, h, told);
            RunsWell(w, s0, s2, stack0, n, run, h + [sight.look], seen + [sight.obj], told + [t.obj], stable)
    decreases Waiting(s.g), 2, 0
  {
    hide RunsWell, GoesWell, Running, Ranked, Tell, WellFormed, TellLook, OnTheWay, ChildF, AllRight, Fine, Settled, SeenBy, Disciplined, Remember, Lasting;
    RunsWellMeans(w, s0, s, stack0, n, run, h, seen, told, stable);
    var stack, a := stack0 + [n], n.def.step(h);
    var o := SharedAt(seen, a.via);
    var (sight, s2) := ChildF(w.kids, s, stack, a.name, true);
    var (sight', s3) := LookF(w.kids, s, stack, a, run, h, seen);
    LookTells(w, s0, s, stack0, n, run, h, seen, told);
    TellsLook(w, s0, n, h, told);
    TargetRank(w, n, h);
    SoFar(w, s0, s, stack0, n, run, h, seen, told, stable);
    RunningMeans(w, s0, s, stack0, n, run, h, seen, told);
    if a.name in w.kids {
      ChildFine(w, s0, s, stack0, n, a.name, true, stable) by { RunningStore(w, s0, s, stack0, n, run, h, seen, told); }
      InstanceShown(w, n, h, sight');
      if o.Some? {
        ThroughInstance(w, n, h, sight', seen);
        if sight.look.Found? {
          ThroughStable(w, EnvOf(w, s0.g), n, h, seen, stable);
          RememberFine(w, s2, EnvOf(w, s0.g), stable, o.value, a.name, Held(sight'.look.v, sight'.obj));
        }
      }
    } else {
      NoChild(w.kids, s, stack, a.name, true);
    }
    GoesOn(w, s0, s, s3, stack0, n, run, h, seen, told, stable, sight');
  }

  /** Members read through the struct value of an instance are stable. */
  lemma ThroughStable(w: World, env: Env, n: Node, h: seq<Lookup>, seen: seq<Option<Obj>>, stable: set<Node>)
    requires Ranked(w) && EnvOk(w, env) && n in w.nodes && n.def.Computed? && |h| == |seen| <= n.def.bound && Verdict(n, h).None?
    requires n.def.step(h).Member? && n.def.step(h).name in w.kids && Disciplined(w, stable)
    requires SeenOfInstances(w, n, h, seen) && SharedAt(seen, n.def.step(h).via).Some?
    ensures NameStable(w, n.def.step(h).name, stable)
  {
    hide Ranked, StableOk, PeeksOk, Played;
    var f := Played(w, env, n, h);
    PlayedOn(w, env, n, h);
    var i := n.def.step(h).via.i;
    assert f[..|h|] == h;
    OfInstancePrefix(w, n, h, f, i);
    assert LooksOk(w, n, stable) && MembersOk(w, n, f, stable) && MemberOk(w, n, f, |h|, stable);
  }

  lemma PlayedOn(w: World, env: Env, n: Node, h: seq<Lookup>)
    requires Ranked(w) && EnvOk(w, env) && n in w.nodes && n.def.Computed? && |h| <= n.def.bound && Verdict(n, h).None?
    ensures |h| < |Played(w, env, n, h)|
  {
    hide Ranked, SeenBy;
    assert h + [SeenBy(w, env, n, h)] <= Played(w, env, n, h);
  }

  lemma RememberFine(w: World, s: Store, env: Env, stable: set<Node>, o: Obj, name: Name, held: Held)
    requires Ranked(w) && EnvOk(w, env) && s.g.Keys == w.nodes && Fine(w, s, env, stable) && NameStable(w, name, stable)
    ensures Fine(w, s.(mem := Remember(s.mem, o, name, held)), env, stable)
  {
    hide Ranked, Remember, DepsOk;
    forall o', name' | Entry(Remember(s.mem, o, name, held), o', name').Some? ensures NameStable(w, name', stable) {
      RememberEntry(s.mem, o, name, held, o', name');
      if !(o' == o && name' == name) { assert Entry(s.mem, o', name').Some?; }
    }
  }

  lemma {:induction false} ChildFine(w: World, s0: Store, s: Store, stack0: seq<Node>, n: Node, name: Name, recorded: bool, stable: set<Node>)
    requires GoesWell(w, s0, s, stable) && n in s.g && n.def.Computed? && n !in stack0
    requires WellFormed(s.g, stack0 + [n]) && StackInside(s.g, stack0 + [n])
    requires OthersAbove(w, s.g, n) && s.g[n].state == Resolving && DepsSettled(s.g, n)
    requires name in w.kids && w.kids[name] in w.nodes && n in w.rank && w.kids[name] in w.rank && w.rank[w.kids[name]] < w.rank[n]
    ensures var (sight, s2) := ChildF(w.kids, s, stack0 + [n], name, recorded);
            var c := w.kids[name];
            GoesWell(w, s0, s2, stable) && Fine(w, s2, EnvOf(w, s0.g), stable) && n in s2.g &&
            s2.g[n].deps == s.g[n].deps + (if recorded then {c} else {}) && DepsSettled(s2.g, n) &&
            (sight.obj.Some? ==> c.def.Computed?)
    decreases Waiting(s.g), 1, 0
  {
    hide Ranked, Tell, WellFormed, ResolveF, OnTheWay, Settled, Fine, AllRight, Disciplined, EdgeAdded, DepsSettled, SameCells;
    var c, stack := w.kids[name], stack0 + [n];
    assert c != n && s.g[c].state != Resolving;
    var s1 := if recorded then s.(g := EdgeAdded(s.g, stack, c)) else s;
    EdgeKeepsForm(s.g, stack, c);
    EdgeKeepsWaiting(s.g, stack, c);
    if recorded {
      EdgeOnTheWay(w, s0, s, stack0, n, c);
      EdgeFine(w, s, EnvOf(w, s0.g), stable, stack0, n, c);
      RunningEdge(s.g, stack0, n, c);
    } else {
      SameCellsRefl(s.g);
    }
    ResolveFine(w, s0, s1, stack, c, stable);
    ResolveForm(w.kids, s1, stack, c);
    var s2 := ResolveF(w.kids, s1, stack, c);
    RunningKept(s1.g, s2.g, n);
    WayStore(w, s0, s2);
    SettledObj(s2, c);
    ChildSettled(s.g, s1.g, s2.g, n, c);
  }

  lemma ChildSettled(a: Graph, b: Graph, c: Graph, n: Node, d: Node)
    requires n in a && SameCells(a, b) && b.Keys == c.Keys && DepsSettled(a, n) && d in c && Settled(c[d])
    requires c[n].deps <= a[n].deps + {d} && forall m :: m in b && Settled(b[m]) ==> Settled(c[m])
    ensures DepsSettled(c, n)
  {
    hide Settled, SameCells;
    assert a.Keys == b.Keys by { SameKeys(a, b); }
    forall m | m in c[n].deps ensures m in c && Settled(c[m]) {
      if m in a[n].deps { SettledEdge(a, b, m); }
    }
  }

  lemma SameKeys(g: Graph, h: Graph)
    requires SameCells(g, h)
    ensures g.Keys == h.Keys
  {}

  lemma WayStore(w: World, s0: Store, s: Store)
    requires OnTheWay(w, s0, s)
    ensures StoreOk(s)
  {
    hide Ranked, AsTold;
  }

  lemma SameCellsRefl(g: Graph)
    ensures SameCells(g, g)
  {}

  lemma SettledEdge(g: Graph, h: Graph, d: Node)
    requires SameCells(g, h) && d in g && Settled(g[d])
    ensures Settled(h[d])
  {}

  lemma RunningEdge(g: Graph, stack0: seq<Node>, n: Node, c: Node)
    requires c in g && n in g && c != n && StackInside(g, stack0 + [n])
    ensures var h := EdgeAdded(g, stack0 + [n], c); SameCells(g, h) && h[n].deps == g[n].deps + {c} && h[n].state == g[n].state
  {}

  /** Progress leaves the edges of a node that keeps running, and settled nodes settled. */
  lemma RunningKept(g: Graph, h: Graph, n: Node)
    requires Progress(g, h) && n in g && g[n].state == Resolving
    ensures h[n].deps == g[n].deps
    ensures forall d :: d in g && Settled(g[d]) ==> Settled(h[d])
  {
    assert Advanced(n, g[n], h[n]);
    forall d | d in g && Settled(g[d]) ensures Settled(h[d]) { assert Advanced(d, g[d], h[d]); }
  }

  lemma EdgeFine(w: World, s: Store, env: Env, stable: set<Node>, stack0: seq<Node>, n: Node, c: Node)
    requires Ranked(w) && EnvOk(w, env) && s.g.Keys == w.nodes && Fine(w, s, env, stable)
    requires n in s.g && c in s.g && c != n && StackInside(s.g, stack0 + [n]) && s.g[n].state == Resolving
    ensures Fine(w, s.(g := EdgeAdded(s.g, stack0 + [n], c)), env, stable)
  {
    hide Ranked, DepsOk, MemoryStable;
    DepsOkKept(w, s.g, EdgeAdded(s.g, stack0 + [n], c), env, stable);
  }

  // ---- Commands keep everything right ----------------------------------------------

  /** Outside an upward closed set of edited nodes no outcome and no read changes. */
  lemma {:induction false} Unaffected(w: World, g: Graph, env': Env, s: set<Node>, stable: set<Node>, m: Node)
    requires Ranked(w) && g.Keys == w.nodes && EnvOk(w, env') && Linked(g) && ClosedUp(g, s)
    requires DepsOk(w, g, EnvOf(w, g), stable) && Disciplined(w, stable) && m in w.nodes && m !in s && Settled(g[m])
    requires AgreeOn(w, EnvOf(w, g), env', stable) && AgreeOn(w, EnvOf(w, g), env', w.nodes - s)
    ensures Unchanged(w, EnvOf(w, g), env', m)
    ensures m.def.Computed? ==> Reads(w, env', m) == Reads(w, EnvOf(w, g), m)
    decreases w.rank[m], 1, 0
  {
    hide ScratchFrom, LooksFrom, Linked, Disciplined;
    if m.def.Computed? {
      var env := EnvOf(w, g);
      assert DepsRight(w, g, env, stable, m);
      PeeksCovered(w, env, m, stable);
      UnaffectedFrom(w, g, env', s, stable, m, []);
    }
  }

  lemma {:induction false} UnaffectedFrom(w: World, g: Graph, env': Env, s: set<Node>, stable: set<Node>, m: Node, h: seq<Lookup>)
    requires Ranked(w) && g.Keys == w.nodes && EnvOk(w, env') && Linked(g) && ClosedUp(g, s)
    requires DepsOk(w, g, EnvOf(w, g), stable) && Disciplined(w, stable) && m in w.nodes && m !in s && Settled(g[m])
    requires AgreeOn(w, EnvOf(w, g), env', stable) && AgreeOn(w, EnvOf(w, g), env', w.nodes - s)
    requires m.def.Computed? && |h| <= m.def.bound
    requires LooksFrom(w, EnvOf(w, g), m, h, true) + LooksFrom(w, EnvOf(w, g), m, h, false) <= g[m].deps + stable
    ensures ScratchFrom(w, env', m, h) == ScratchFrom(w, EnvOf(w, g), m, h)
    ensures LooksFrom(w, env', m, h, true) == LooksFrom(w, EnvOf(w, g), m, h, true)
    decreases w.rank[m], 0, m.def.bound - |h|
  {
    hide Ranked, Scratch, AgreeOn, Linked, ClosedUp, Disciplined, Settled, DepsOk;
    if Verdict(m, h).None? {
      var env := EnvOf(w, g);
      TargetRank(w, m, h);
      var a := m.def.step(h);
      if !Blind(m, h) && a.name in w.kids {
        var c := w.kids[a.name];
        assert c in LookedUp(w, m, h, a.Member?);
        if c in g[m].deps {
          DepOutside(w, g, s, stable, m, c);
          Unaffected(w, g, env', s, stable, c);
        } else {
          assert StableOk(w, stable) by { DisciplineStable(w, stable); }
          StableSame(w, stable, env, env', c);
        }
      }
      UnaffectedFrom(w, g, env', s, stable, m, h + [SeenBy(w, env, m, h)]);
    }
  }

  lemma DisciplineStable(w: World, stable: set<Node>)
    requires Disciplined(w, stable)
    ensures StableOk(w, stable)
  {}

  lemma DepOutside(w: World, g: Graph, s: set<Node>, stable: set<Node>, m: Node, c: Node)
    requires Ranked(w) && g.Keys == w.nodes && Linked(g) && DepsOk(w, g, EnvOf(w, g), stable) && ClosedUp(g, s)
    requires m in w.nodes && m !in s && m.def.Computed? && Settled(g[m]) && c in g[m].deps
    ensures c in g && c !in s && Settled(g[c])
  {
    hide Ranked, LooksFrom;
    assert DepsRight(w, g, EnvOf(w, g), stable, m);
    assert m in g[c].rdeps;
  }

  lemma EditKeepsConsistent(w: World, s: Store, h: Graph, d: set<Node>, stable: set<Node>)
    requires Ranked(w) && s.g.Keys == h.Keys == w.nodes && Consistent(w, s, stable) && Linked(s.g)
    requires Disciplined(w, stable) && ClosedUp(s.g, d) && EditsOnly(s.g, h, d) && Pristine(w, h, stable)
    ensures Consistent(w, s.(g := h), stable)
  {
    hide Ranked, Scratch, LooksFrom, Linked, ClosedUp, Disciplined, UpToDate, MemoryRight, MemoryStable, DepsOk;
    var g, env, env' := s.g, EnvOf(w, s.g), EnvOf(w, h);
    assert AgreeOn(w, env, env', stable);
    assert AgreeOn(w, env, env', w.nodes - d);
    forall m | m in w.nodes && m !in d && Settled(g[m])
      ensures Unchanged(w, env, env', m) && (m.def.Computed? ==> DepsRight(w, h, env', stable, m))
    {
      Unaffected(w, g, env', d, stable, m);
      if m.def.Computed? {
        DepsOf(w, g, env, stable, m);
        forall c | c in h[m].deps ensures c in h && Settled(h[c]) { DepOutside(w, g, d, stable, m, c); }
      }
    }
    EditUpToDateIff(w, g, h, d);
    EditDepsOk(w, g, h, env', d, stable);
    EditMemoryRight(w, s.mem, env, env', stable);
  }

  lemma DepsOf(w: World, g: Graph, env: Env, stable: set<Node>, m: Node)
    requires Ranked(w) && EnvOk(w, env) && g.Keys == w.nodes && DepsOk(w, g, env, stable)
    requires m in w.nodes && m.def.Computed? && Settled(g[m])
    ensures DepsRight(w, g, env, stable, m)
  {
    hide Ranked, DepsRight;
  }

  lemma EditDepsOk(w: World, g: Graph, h: Graph, env': Env, d: set<Node>, stable: set<Node>)
    requires Ranked(w) && EnvOk(w, env') && g.Keys == h.Keys == w.nodes && EditsOnly(g, h, d)
    requires forall m :: m in w.nodes && m !in d && Settled(g[m]) && m.def.Computed? ==> DepsRight(w, h, env', stable, m)
    ensures DepsOk(w, h, env', stable)
  {
    hide Ranked, DepsRight;
  }

  /** What struct values remember is stable, and so stays right. */
  lemma EditMemoryRight(w: World, mem: Memory, env: Env, env': Env, stable: set<Node>)
    requires Ranked(w) && EnvOk(w, env) && EnvOk(w, env') && MemoryRight(w, env, mem) && MemoryStable(w, mem, stable)
    requires Disciplined(w, stable) && AgreeOn(w, env, env', stable)
    ensures MemoryRight(w, env', mem)
  {
    hide Ranked, Scratch, AgreeOn, Disciplined;
    DisciplineStable(w, stable);
    forall o, name | Entry(mem, o, name).Some? ensures EntryRight(w, env', Entry(mem, o, name).value, name) {
      assert EntryRight(w, env, Entry(mem, o, name).value, name) && NameStable(w, name, stable);
      StableSame(w, stable, env, env', w.kids[name]);
    }
  }

  lemma EditOnly(w: World, s: Store, n: Node, v: Value, stable: set<Node>)
    requires Resting(w, s) && n in s.g && n.def.Leaf? && n !in stable && Pristine(w, s.g, stable)
    ensures Linked(s.g) && ClosedUp(s.g, Readers(s.g, n) + {n}) && Pristine(w, ValueSet(s.g, n, v), stable)
  {
    hide Readers, StoreOk;
    ReadersAreDependents(s.g, n);
    DependentsClosed(s.g, n);
  }

  lemma TouchOnly(w: World, s: Store, n: Node, stable: set<Node>)
    requires Resting(w, s) && n in s.g && Pristine(w, s.g, stable)
    ensures Linked(s.g) && ClosedUp(s.g, Dependents(s.g, n)) && Pristine(w, Dirtied(s.g, Dependents(s.g, n)), stable)
  {
    hide Dependents, StoreOk;
    DependentsClosed(s.g, n);
  }

  /** Under the discipline every command keeps caches, edges and memories right. */
  lemma StepKeepsConsistent(w: World, s: Store, c: Command, stable: set<Node>)
    requires Ranked(w) && Resting(w, s) && CommandOk(w, c) && (c.Edit? ==> c.n !in stable)
    requires Disciplined(w, stable) && Consistent(w, s, stable)
    ensures Consistent(w, Step(w, s, c), stable)
  {
    hide Ranked, ResolveF, Disciplined, Dependents, Readers, Pristine, EditsOnly, ClosedUp, Linked, ValueSet, Dirtied, WellFormed, AllRight, Fine, StoreOk, Calm;
    var h := Step(w, s, c).g;
    if c.Demand? {
      DemandKeepsConsistent(w, s, c.n, stable);
    } else {
      StepEditsOnly(w, s, c);
      if c.Touch? {
        TouchOnly(w, s, c.n, stable);
        EditKeepsConsistent(w, s, h, Dependents(s.g, c.n), stable);
      } else if Primitive(c.v) {
        EditOnly(w, s, c.n, c.v, stable);
        EditKeepsConsistent(w, s, h, Readers(s.g, c.n) + {c.n}, stable);
      }
    }
  }

  lemma DemandKeepsConsistent(w: World, s: Store, n: Node, stable: set<Node>)
    requires Ranked(w) && Resting(w, s) && n in w.nodes && Disciplined(w, stable) && Consistent(w, s, stable)
    ensures s.g.Keys == ResolveF(w.kids, s, [], n).g.Keys && Consistent(w, ResolveF(w.kids, s, [], n), stable)
  {
    hide Ranked, ResolveF, Disciplined, WellFormed, AllRight, Fine, StoreOk, Calm, OnTheWay;
    RestingOnTheWay(w, s, n);
    DemandKeepsRight(w, s, n);
    ResolveFine(w, s, s, [], n, stable);
    var s' := ResolveF(w.kids, s, [], n);
    WellFine(w, s, s', stable);
  }

  lemma WellFine(w: World, s0: Store, s: Store, stable: set<Node>)
    requires GoesWell(w, s0, s, stable)
    ensures Fine(w, s, EnvOf(w, s0.g), stable)
  {
    hide Ranked, AllRight, Disciplined, OnTheWay, Fine;
  }

  /** Under the discipline everything settled is right after any interleaving of commands. */
  lemma {:induction false} DisciplinedRun(w: World, s: Store, commands: seq<Command>, stable: set<Node>)
    requires Ranked(w) && Resting(w, s) && Disciplined(w, stable) && Consistent(w, s, stable)
    requires forall i :: 0 <= i < |commands| ==> CommandOk(w, commands[i]) && (commands[i].Edit? ==> commands[i].n !in stable)
    ensures Consistent(w, After(w, s, commands), stable) && AlwaysUpToDate(w, s, commands)
    decreases |commands|
  {
    hide Ranked, WellFormed, Calm, StoreOk, Disciplined, Step, UpToDate, MemoryRight, Fine, Pristine;
    if commands != [] {
      StepKeepsConsistent(w, s, commands[0], stable);
      DisciplinedRun(w, Step(w, s, commands[0]), commands[1..], stable);
    }
  }

  /** A fresh tree is right: nothing is cached or remembered. */
  lemma FreshTree(w: World, g: Graph, stable: set<Node>)
    requires Ranked(w) && g.Keys == w.nodes && forall m :: m in g ==> g[m] == FRESH
    ensures Resting(w, Store(g, Memory(map[], 0))) && Consistent(w, Store(g, Memory(map[], 0)), stable)
  {
    hide Ranked;
    RankedKids(w);
  }

  // ---- On the objects ------------------------------------------------------------

  /** Demanding a node answers with its from-scratch outcome, and changes no leaf's value, if
      caches and memories are right. */
  method Answer(t: Tree, ghost w: World, n: Node) returns (err: Option<EvalError>)
    requires t.Valid() && t.resolvingStack == [] && n in t.nodes && w.nodes == t.nodes && w.kids == t.kids
    requires Ranked(w) && Resting(w, t.Here()) && AllRight(w, t.Here())
    modifies t, t.nodes
    ensures t.Valid() && t.resolvingStack == [] && Resting(w, t.Here()) && AllRight(w, t.Here())
    ensures EnvOf(w, t.Now()) == old(EnvOf(w, t.Now())) && Settled(t.Now()[n])
    ensures OutcomeOf(t.Now()[n]) == Scratch(w, old(EnvOf(w, t.Now())), n) && err == ErrorOf(t.Now()[n])
  {
    hide Ranked, Scratch, ResolveF, WellFormed, Progress, Linked, StoreOk, Calm, AllRight;
    ghost var s := t.Here();
    DemandKeepsRight(w, s, n);
    assert Resting(w, Step(w, s, Demand(n)));
    err := t.Resolve(n);
  }

  /** The objects go through the stores of `After`. */
  method Run(t: Tree, ghost w: World, commands: seq<Command>)
    requires t.Valid() && t.resolvingStack == [] && Resting(w, t.Here()) && w.nodes == t.nodes && w.kids == t.kids
    requires forall i :: 0 <= i < |commands| ==> CommandOk(w, commands[i])
    modifies t, t.nodes
    ensures t.Valid() && t.resolvingStack == []
    ensures t.Here() == After(w, old(t.Here()), commands)
  {
    hide WellFormed, Calm, ResolveF, Progress, Linked, Dependents, Readers, Dirtied, ValueSet, StoreOk;
    ghost var s0 := t.Here();
    assert commands[0..] == commands;
    for i := 0 to |commands|
      invariant t.Valid() && t.resolvingStack == [] && Resting(w, t.Here())
      invariant After(w, t.Here(), commands[i..]) == After(w, s0, commands)
    {
      ghost var s := t.Here();
      assert commands[i..][0] == commands[i] && commands[i..][1..] == commands[i + 1..];
      Execute(t, w, commands[i]);
    }
    assert commands[|commands|..] == [];
  }

  method Execute(t: Tree, ghost w: World, c: Command)
    requires t.Valid() && t.resolvingStack == [] && Resting(w, t.Here()) && w.nodes == t.nodes && w.kids == t.kids
    requires CommandOk(w, c)
    modifies t, t.nodes
    ensures t.Valid() && t.resolvingStack == [] && Resting(w, t.Here()) && t.Here() == Step(w, old(t.Here()), c)
  {
    hide WellFormed, Calm, ResolveF, Progress, Linked, Dependents, Readers, Dirtied, ValueSet, StoreOk;
    ghost var s := t.Here();
    StepRests(w, s, c);
    match c {
      case Demand(n) =>
        var _ := t.Resolve(n);
      case Edit(n, v) =>
        var _ := n.SetValue(v, t.nodes);
      case Touch(n) =>
        n.MarkDirty(t.nodes);
    }
    assert t.Here() == Step(w, s, c);
  }
}
