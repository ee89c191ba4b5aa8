/** When cached results equal evaluation from scratch. */
module EvalCorrect {
  import opened EvalNode
  import opened EvalTree
  import opened EvalScratch
  import opened EvalTold
  import opened Options

  // ---- Right caches ----------------------------------------------------------

  /** Every settled node, leaf or value instance, holds its from-scratch outcome. */
  ghost predicate UpToDate(w: World, g: Graph)
    requires Ranked(w) && g.Keys == w.nodes
  {
    forall n :: n in w.nodes && Settled(g[n]) ==> Right(w, g, EnvOf(w, g), n)
  }

  ghost predicate Right(w: World, g: Graph, env: Env, n: Node)
    requires Ranked(w) && EnvOk(w, env) && n in w.nodes && n in g && Settled(g[n])
  {
    OutcomeOf(g[n]) == Scratch(w, env, n)
  }

  /** Every member that a lasting struct value remembers is what it is from scratch. */
  ghost predicate MemoryRight(w: World, env: Env, mem: Memory)
    requires Ranked(w) && EnvOk(w, env)
  {
    forall o, name :: Entry(mem, o, name).Some? ==> EntryRight(w, env, Entry(mem, o, name).value, name)
  }

  ghost predicate EntryRight(w: World, env: Env, held: Held, name: Name)
    requires Ranked(w) && EnvOk(w, env)
  {
    name in w.kids && w.kids[name] in w.nodes && Found(held.value) == AsLookup(Scratch(w, env, w.kids[name]))
  }

  /** Caches and memories are right. */
  ghost predicate AllRight(w: World, s: Store)
    requires Ranked(w) && s.g.Keys == w.nodes
  {
    UpToDate(w, s.g) && MemoryRight(w, EnvOf(w, s.g), s.mem)
  }

  /** Then a resolution is told what evaluation from scratch gives. */
  lemma {:induction false} TellsScratch(w: World, s0: Store, n: Node)
    requires Ranked(w) && s0.g.Keys == w.nodes && AllRight(w, s0) && n in w.nodes
    ensures Tell(w, s0, n).outcome == Scratch(w, EnvOf(w, s0.g), n)
    decreases w.rank[n], 2, 0
  {
    hide MemoryRight, TellFrom, ScratchFrom;
    if Settled(s0.g[n]) {
      assert Right(w, s0.g, EnvOf(w, s0.g), n);
    } else if n.def.Computed? {
      TellsScratchFrom(w, s0, n, [], []);
    }
  }

  lemma {:induction false} TellsScratchFrom(w: World, s0: Store, n: Node, h: seq<Lookup>, seen: seq<Option<Obj>>)
    requires Ranked(w) && s0.g.Keys == w.nodes && AllRight(w, s0) && n in w.nodes
    requires n.def.Computed? && |h| == |seen| <= n.def.bound
    ensures TellFrom(w, s0, n, h, seen).outcome == ScratchFrom(w, EnvOf(w, s0.g), n, h)
    decreases w.rank[n], 1, n.def.bound - |h|
  {
    hide Ranked, AllRight, TellLook, SeenBy;
    if Verdict(n, h).None? {
      TellsLook(w, s0, n, h, seen);
      var sight := TellLook(w, s0, n, h, seen);
      TellsScratchFrom(w, s0, n, h + [sight.look], seen + [sight.obj]);
    }
  }

  lemma {:induction false} TellsLook(w: World, s0: Store, n: Node, h: seq<Lookup>, seen: seq<Option<Obj>>)
    requires Ranked(w) && s0.g.Keys == w.nodes && AllRight(w, s0) && n in w.nodes
    requires n.def.Computed? && |h| == |seen| < n.def.bound && Looks(n, h)
    ensures TellLook(w, s0, n, h, seen).look == SeenBy(w, EnvOf(w, s0.g), n, h)
    decreases w.rank[n], 0, 0
  {
    hide Ranked, Tell, Scratch, UpToDate;
    TargetRank(w, n, h);
    var a := n.def.step(h);
    if !Blind(n, h) {
      if a.name in w.kids { TellsScratch(w, s0, w.kids[a.name]); }
      if a.Member? && SharedAt(seen, a.via).Some? && Remembered(s0.mem, SharedAt(seen, a.via), a.name).Some? {
        assert Entry(s0.mem, SharedAt(seen, a.via).value, a.name).Some?;
      }
    }
  }

  // ---- Commands --------------------------------------------------------------

  datatype Command = Demand(n: Node) | Edit(n: Node, v: Value) | Touch(n: Node)

  ghost predicate CommandOk(w: World, c: Command)
  {
    c.n in w.nodes && (c.Edit? ==> c.n.def.Leaf?)
  }

  /** No node is being resolved. */
  ghost predicate Calm(g: Graph)
  {
    forall m :: m in g ==> g[m].state != Resolving
  }

  /** Between commands. */
  ghost predicate Resting(w: World, s: Store)
  {
    w.kids.Values <= w.nodes == s.g.Keys && WellFormed(s.g, []) && Calm(s.g) && StoreOk(s)
  }

  /** The effect of a command. */
  ghost function Step(w: World, s: Store, c: Command): (s': Store)
    requires Resting(w, s) && CommandOk(w, c)
    ensures Resting(w, s')
  {
    StepRests(w, s, c);
    if c.Demand? then ResolveF(w.kids, s, [], c.n)
    else if c.Touch? then s.(g := Dirtied(s.g, Dependents(s.g, c.n)))
    else if Primitive(c.v) then s.(g := ValueSet(s.g, c.n, c.v))
    else s
  }

  lemma StepRests(w: World, s: Store, c: Command)
    requires Resting(w, s) && CommandOk(w, c)
    ensures Linked(s.g) && Resting(w, if c.Demand? then ResolveF(w.kids, s, [], c.n)
                                      else if c.Edit? then s.(g := ValueSet(s.g, c.n, c.v))
                                      else s.(g := Dirtied(s.g, Dependents(s.g, c.n))))
  {
    hide Linked, Dependents, Readers, ResolveF, StoreOk;
    match c {
      case Demand(n) =>
        ResolveForm(w.kids, s, [], n);
        ResolveStoreOk(w.kids, s, [], n);
        CalmAfter(s.g, ResolveF(w.kids, s, [], n).g);
      case Edit(n, v) =>
        EditForm(s.g, n, v);
        EditStoreOk(s, n, v);
      case Touch(n) =>
        DirtiedForm(s.g, Dependents(s.g, n));
        DirtiedStoreOk(s, Dependents(s.g, n));
    }
  }

  lemma CalmAfter(g: Graph, h: Graph)
    requires Calm(g) && Progress(g, h)
    ensures Calm(h)
  {
    forall m | m in h ensures h[m].state != Resolving { assert Advanced(m, g[m], h[m]); }
  }

  lemma DirtiedForm(g: Graph, s: set<Node>)
    requires WellFormed(g, []) && Calm(g)
    ensures WellFormed(Dirtied(g, s), []) && Calm(Dirtied(g, s))
  {
    DirtiedLinked(g, s);
    hide Linked;
  }

  lemma DirtiedStoreOk(s: Store, d: set<Node>)
    requires StoreOk(s)
    ensures StoreOk(s.(g := Dirtied(s.g, d)))
  {
    hide MemoryOk;
  }

  lemma EditForm(g: Graph, n: Node, v: Value)
    requires WellFormed(g, []) && Calm(g) && n in g
    ensures WellFormed(ValueSet(g, n, v), []) && Calm(ValueSet(g, n, v))
  {
    hide Readers, Linked, Dirtied;
    DirtiedForm(g, Readers(g, n));
    var d := Dirtied(g, Readers(g, n));
    StoredLinks(d, n, v);
  }

  lemma EditStoreOk(s: Store, n: Node, v: Value)
    requires StoreOk(s) && n in s.g && Linked(s.g)
    ensures StoreOk(s.(g := ValueSet(s.g, n, v)))
  {
    hide MemoryOk, Readers;
    DirtiedStoreOk(s, Readers(s.g, n));
  }

  lemma StoredLinks(d: Graph, n: Node, v: Value)
    requires WellFormed(d, []) && Calm(d) && n in d
    ensures var h := d[n := d[n].(state := Resolved, value := v, obj := None)]; WellFormed(h, []) && Calm(h)
  {
    hide Linked;
    SameLinks(d, d[n := d[n].(state := Resolved, value := v, obj := None)]);
  }

  ghost function After(w: World, s: Store, commands: seq<Command>): (s': Store)
    requires Resting(w, s) && forall i :: 0 <= i < |commands| ==> CommandOk(w, commands[i])
    ensures Resting(w, s')
    decreases |commands|
  {
    if commands == [] then s else After(w, Step(w, s, commands[0]), commands[1..])
  }

  // ---- What a demand answers ---------------------------------------------------

  /** A store that rests is on its own way. */
  lemma RestingOnTheWay(w: World, s: Store, n: Node)
    requires Ranked(w) && Resting(w, s) && n in s.g
    ensures OnTheWay(w, s, s) && OthersAbove(w, s.g, n) && s.g[n].state != Resolving && StackInside(s.g, [])
  {
    hide Ranked, TellFrom, WellFormed;
    forall m | m in w.nodes && Settled(s.g[m]) ensures CellAsTold(w, s, s.g[m], m) {}
    forall o, name ensures EntryAsTold(w, s, s.mem, o, name) {}
  }

  lemma EnvKept(w: World, g: Graph, h: Graph)
    requires g.Keys == h.Keys == w.nodes && Progress(g, h) && Calm(g)
    ensures EnvOf(w, h) == EnvOf(w, g)
  {
    forall n | n in w.nodes && n.def.Leaf? ensures EnvOf(w, h)[n] == EnvOf(w, g)[n] { assert Advanced(n, g[n], h[n]); }
  }

  /** A demand changes no leaf, leaves every settled node as it is, and settles others, all
      as told. */
  lemma DemandTells(w: World, s: Store, n: Node)
    requires Ranked(w) && Resting(w, s) && n in w.nodes
    ensures var s' := ResolveF(w.kids, s, [], n);
            OnTheWay(w, s, s') && EnvOf(w, s'.g) == EnvOf(w, s.g) && Settled(s'.g[n]) && Progress(s.g, s'.g)
  {
    hide Ranked, Tell, WellFormed, ResolveF, OnTheWay, StoreOk, Progress;
    RestingOnTheWay(w, s, n);
    ResolveTells(w, s, s, [], n);
    ResolveForm(w.kids, s, [], n);
    EnvKept(w, s.g, ResolveF(w.kids, s, [], n).g);
  }

  /** While a value instance is evaluated from right caches and memories, each lookup shows
      what its target is from scratch. */
  lemma LookShowsTarget(w: World, s0: Store, s: Store, stack0: seq<Node>, n: Node, run: nat, h: seq<Lookup>, seen: seq<Option<Obj>>, told: seq<Option<Obj>>)
    requires Running(w, s0, s, stack0, n, run, h, seen, told) && w.kids.Values <= w.nodes && AllRight(w, s0)
    requires Looks(n, h) && |h| < n.def.bound && n in w.nodes
    ensures StackInside(s.g, stack0 + [n]) && w.kids.Values <= s.g.Keys
    ensures var look := LookF(w.kids, s, stack0 + [n], n.def.step(h), run, h, seen).0.look;
            ShowsTarget(w, EnvOf(w, s0.g), n, h + [look], |h|)
  {
    hide Running, OnTheWay, Ranked, Tell, Scratch, LookF, AllRight, WellFormed;
    RunningMeans(w, s0, s, stack0, n, run, h, seen, told);
    LookTells(w, s0, s, stack0, n, run, h, seen, told);
    TellsLook(w, s0, n, h, told);
    TargetRank(w, n, h);
    var look := LookF(w.kids, s, stack0 + [n], n.def.step(h), run, h, seen).0.look;
    assert (h + [look])[..|h|] == h && (h + [look])[|h|] == look;
  }

  lemma StartsRunning(w: World, s: Store, n: Node)
    requires Ranked(w) && Resting(w, s) && n in w.nodes && n.def.Computed? && s.g[n].state == Unresolved
    ensures Running(w, s, Started(s, n), [], n, s.mem.clock, [], [], [])
  {
    hide Ranked, Tell, WellFormed, OnTheWay;
    RestingOnTheWay(w, s, n);
    BeginForm(s.g, [], n);
    StartedOnTheWay(w, s, s, n);
    assert [] + [n] == [n];
  }

  /** A first member, read through a scope: in a right tree, such as a fresh one, it shows
      its from-scratch outcome, and leaves the edge. */
  lemma FirstMemberRead(w: World, s: Store, n: Node, via: Ref, name: Name)
    requires Ranked(w) && Resting(w, s) && AllRight(w, s) && n in w.nodes && n.def.Computed? && s.g[n].state == Unresolved
    requires n.def.bound > 0 && n.def.step([]) == Member(via, name) && (via.Own? || via.Root?) && name in w.kids
    ensures StackInside(Started(s, n).g, [n])
    ensures var c := w.kids[name];
            var (sight, s') := LookF(w.kids, Started(s, n), [n], Member(via, name), s.mem.clock, [], []);
            c in s'.g && c in w.nodes && n in s'.g && c in s'.g[n].deps && Settled(s'.g[c]) &&
            sight.look == match Scratch(w, EnvOf(w, s.g), c) case Good(v) => if v == NoValue then Null else Found(v) case Bad(_) => Null
  {
    hide Ranked, Tell, Scratch, LookF, AllRight, WellFormed, Running, ResolveF, StoreOk;
    var c, s1 := w.kids[name], Started(s, n);
    StartsRunning(w, s, n);
    RunningMeans(w, s, s1, [], n, s.mem.clock, [], [], []);
    assert [] + [n] == [n];
    LookShowsTarget(w, s, s1, [], n, s.mem.clock, [], [], []);
    var (sight, s') := LookF(w.kids, s1, [n], Member(via, name), s.mem.clock, [], []);
    assert ([] + [sight.look])[..0] == [] && ([] + [sight.look])[0] == sight.look;
    TargetRank(w, n, []);
    LookStep(w.kids, s1, [n], Member(via, name), s.mem.clock, [], []);
    MemberStep(w.kids, s1, [n], None, name, s.mem.clock, 0);
    ChildShows(w.kids, s1, [n], name, true);
  }

  /** Everything told is right: what struct values remember misleads no evaluation. */
  ghost predicate ToldRight(w: World, s: Store, m: Node)
    requires Ranked(w) && s.g.Keys == w.nodes && m in w.nodes
  {
    Tell(w, s, m).outcome == Scratch(w, EnvOf(w, s.g), m)
  }

  lemma DemandUpToDateIff(w: World, s: Store, n: Node)
    requires Ranked(w) && Resting(w, s) && n in w.nodes && UpToDate(w, s.g)
    ensures var s' := ResolveF(w.kids, s, [], n);
            UpToDate(w, s'.g) <==> forall m :: m in w.nodes && !Settled(s.g[m]) && Settled(s'.g[m]) ==> ToldRight(w, s, m)
  {
    hide Ranked, Tell, WellFormed, ResolveF, StoreOk, Progress, Scratch, MemoryAsTold, MemoryOk;
    DemandTells(w, s, n);
    var s' := ResolveF(w.kids, s, [], n);
    var env := EnvOf(w, s.g);
    forall m | m in w.nodes && Settled(s'.g[m]) ensures Right(w, s'.g, env, m) <==> ToldRight(w, s, m) {
      assert CellAsTold(w, s, s'.g[m], m);
    }
    forall m | m in w.nodes && Settled(s.g[m]) ensures ToldRight(w, s, m) {
      assert Right(w, s.g, env, m);
      SettledTold(w, s, m);
    }
  }

  lemma SettledTold(w: World, s: Store, m: Node)
    requires Ranked(w) && s.g.Keys == w.nodes && m in w.nodes && Settled(s.g[m])
    ensures Tell(w, s, m) == Told(OutcomeOf(s.g[m]), s.g[m].obj)
  {}

  /** With right caches and memories a demand keeps both right, and answers from scratch. */
  lemma DemandKeepsRight(w: World, s: Store, n: Node)
    requires Ranked(w) && Resting(w, s) && n in w.nodes && AllRight(w, s)
    ensures var s' := ResolveF(w.kids, s, [], n);
            s'.g.Keys == w.nodes && AllRight(w, s') && EnvOf(w, s'.g) == EnvOf(w, s.g) &&
            Settled(s'.g[n]) && Right(w, s'.g, EnvOf(w, s.g), n)
  {
    hide Ranked, Tell, WellFormed, ResolveF, StoreOk, Progress, Scratch, MemoryOk, MemoryRight;
    DemandTells(w, s, n);
    DemandUpToDateIff(w, s, n);
    forall m | m in w.nodes ensures ToldRight(w, s, m) { TellsScratch(w, s, m); }
    MemoryStaysRight(w, s, ResolveF(w.kids, s, [], n));
  }

  lemma MemoryStaysRight(w: World, s: Store, s': Store)
    requires Ranked(w) && s.g.Keys == w.nodes && AllRight(w, s) && MemoryAsTold(w, s, s'.mem)
    ensures MemoryRight(w, EnvOf(w, s.g), s'.mem)
  {
    hide Ranked, Tell, Scratch, UpToDate;
    var env := EnvOf(w, s.g);
    forall o, name | Entry(s'.mem, o, name).Some? ensures EntryRight(w, env, Entry(s'.mem, o, name).value, name) {
      assert EntryAsTold(w, s, s'.mem, o, name);
      if Entry(s.mem, o, name).Some? {
        assert EntryRight(w, env, Entry(s.mem, o, name).value, name);
      } else {
        TellsScratch(w, s, w.kids[name]);
      }
    }
  }

  // ---- The exact condition -----------------------------------------------------

  /** The nodes that a command resets or sets. */
  ghost function Touched(w: World, s: Store, c: Command): set<Node>
    requires Resting(w, s) && CommandOk(w, c)
  {
    if c.Demand? then {}
    else if c.Touch? then Dependents(s.g, c.n)
    else if Primitive(c.v) then Readers(s.g, c.n) + {c.n}
    else {}
  }

  /** An edit or dirtying reaches, by recorded edges, every settled node whose from-scratch
      outcome it changes. A demand settles only nodes that are told right. */
  ghost predicate Covered(w: World, s: Store, c: Command)
    requires Ranked(w) && Resting(w, s) && CommandOk(w, c)
  {
    if c.Demand? then
      forall m :: m in w.nodes && !Settled(s.g[m]) && Settled(Step(w, s, c).g[m]) ==> ToldRight(w, s, m)
    else
      forall m :: m in w.nodes && m !in Touched(w, s, c) && Settled(s.g[m]) ==>
        Unchanged(w, EnvOf(w, s.g), EnvOf(w, Step(w, s, c).g), m)
  }

  ghost predicate Unchanged(w: World, env: Env, env': Env, m: Node)
    requires Ranked(w) && EnvOk(w, env) && EnvOk(w, env') && m in w.nodes
  {
    Scratch(w, env', m) == Scratch(w, env, m)
  }

  /** After a command everything settled is right exactly if the command was covered. */
  lemma StepUpToDateIff(w: World, s: Store, c: Command)
    requires Ranked(w) && Resting(w, s) && CommandOk(w, c) && UpToDate(w, s.g)
    ensures UpToDate(w, Step(w, s, c).g) <==> Covered(w, s, c)
  {
    hide Ranked, Scratch, ResolveF, WellFormed, Dependents, Readers, StoreOk, Calm, UpToDate, ToldRight;
    if c.Demand? {
      DemandUpToDateIff(w, s, c.n);
    } else {
      StepEditsOnly(w, s, c);
      EditUpToDateIff(w, s.g, Step(w, s, c).g, Touched(w, s, c));
    }
  }

  /** An edit that resets or sets the nodes of `s`. */
  ghost predicate EditsOnly(g: Graph, h: Graph, s: set<Node>)
    requires g.Keys == h.Keys
  {
    forall m :: m in g ==>
      if m in s then h[m].state == Unresolved || (m.def.Leaf? && h[m].state == Resolved)
      else h[m].state == g[m].state && h[m].value == g[m].value && h[m].err == g[m].err && h[m].deps == g[m].deps
  }

  lemma StepEditsOnly(w: World, s: Store, c: Command)
    requires Resting(w, s) && CommandOk(w, c) && !c.Demand?
    ensures EditsOnly(s.g, Step(w, s, c).g, Touched(w, s, c)) && Step(w, s, c).mem == s.mem
  {
    hide Dependents, Readers, WellFormed, StoreOk;
  }

  lemma EditUpToDateIff(w: World, g: Graph, h: Graph, s: set<Node>)
    requires Ranked(w) && g.Keys == h.Keys == w.nodes && UpToDate(w, g) && EditsOnly(g, h, s)
    ensures UpToDate(w, h) <==>
            forall m :: m in w.nodes && m !in s && Settled(g[m]) ==> Unchanged(w, EnvOf(w, g), EnvOf(w, h), m)
  {
    hide Ranked, Scratch;
    var env, env' := EnvOf(w, g), EnvOf(w, h);
    forall m | m in w.nodes && m in s && Settled(h[m]) ensures Right(w, h, env', m) {
      LeafScratch(w, env', m);
    }
    forall m | m in w.nodes && m !in s && Settled(g[m]) ensures Right(w, h, env', m) <==> Unchanged(w, env, env', m) {
      assert Right(w, g, env, m);
    }
  }

  ghost predicate AllCovered(w: World, s: Store, commands: seq<Command>)
    requires Ranked(w) && Resting(w, s) && forall i :: 0 <= i < |commands| ==> CommandOk(w, commands[i])
    decreases |commands|
  {
    commands == [] || (Covered(w, s, commands[0]) && AllCovered(w, Step(w, s, commands[0]), commands[1..]))
  }

  ghost predicate AlwaysUpToDate(w: World, s: Store, commands: seq<Command>)
    requires Ranked(w) && Resting(w, s) && forall i :: 0 <= i < |commands| ==> CommandOk(w, commands[i])
    decreases |commands|
  {
    UpToDate(w, s.g) && (commands == [] || AlwaysUpToDate(w, Step(w, s, commands[0]), commands[1..]))
  }

  /** Over any interleaving of demands, edits of leaves and dirtyings, everything settled is
      right all the time exactly if every command was covered when it was issued. */
  lemma {:induction false} AlwaysUpToDateIff(w: World, s: Store, commands: seq<Command>)
    requires Ranked(w) && Resting(w, s) && UpToDate(w, s.g)
    requires forall i :: 0 <= i < |commands| ==> CommandOk(w, commands[i])
    ensures AlwaysUpToDate(w, s, commands) <==> AllCovered(w, s, commands)
    decreases |commands|
  {
    hide Ranked, UpToDate, Covered, Step, WellFormed, Calm, StoreOk;
    if commands != [] {
      var s' := Step(w, s, commands[0]);
      StepUpToDateIff(w, s, commands[0]);
      if UpToDate(w, s'.g) { AlwaysUpToDateIff(w, s', commands[1..]); } else { NotAlways(w, s', commands[1..]); }
    }
  }

  lemma NotAlways(w: World, s: Store, commands: seq<Command>)
    requires Ranked(w) && Resting(w, s) && !UpToDate(w, s.g)
    requires forall i :: 0 <= i < |commands| ==> CommandOk(w, commands[i])
    ensures !AlwaysUpToDate(w, s, commands)
  {
    hide Ranked, UpToDate, Step, WellFormed, Calm, StoreOk;
  }

  /** An edit of a leaf is covered if every settled node that rests on the leaf, directly or
      through others, is one of its readers. */
  lemma EditCovered(w: World, s: Store, n: Node, v: Value)
    requires Ranked(w) && Resting(w, s) && CommandOk(w, Edit(n, v)) && Primitive(v) && Linked(s.g)
    requires forall m :: m in Readers(s.g, n) ==> m.def.Computed?
    requires forall m :: m in w.nodes && Settled(s.g[m]) && m != n && RestsOn(w, EnvOf(w, s.g), m, n) ==> m in Readers(s.g, n)
    ensures Covered(w, s, Edit(n, v))
  {
    hide Ranked, Scratch, RestsOn, Readers, WellFormed, StoreOk, Calm, ResolveF;
    var env, env' := EnvOf(w, s.g), EnvOf(w, Step(w, s, Edit(n, v)).g);
    assert SameBut(w, env, env', n);
    forall m | m in w.nodes && m !in Touched(w, s, Edit(n, v)) && Settled(s.g[m]) ensures Unchanged(w, env, env', m) {
      NotResting(w, env, env', m, n);
    }
  }
}
