/** What a resolution answers: evaluation in which settled nodes answer from their caches, and
    lasting struct values from what they remember. */
module EvalTold {
  import opened EvalNode
  import opened EvalTree
  import opened EvalScratch
  import opened Options

  /** An outcome, and which lasting struct value it is, if it is one that lasted before. */
  datatype Told = Told(outcome: Outcome, obj: Option<Obj>)

  function Show(t: Told): Sight
  {
    Sight(AsLookup(t.outcome), if t.outcome.Good? && t.outcome.v.StructValue? then t.obj else None)
  }

  /** The answer of node `n` in the store `s0`, before anything is resolved. */
  ghost function Tell(w: World, s0: Store, n: Node): Told
    requires Ranked(w) && s0.g.Keys == w.nodes && n in w.nodes
    decreases w.rank[n], 2, 0
  {
    if Settled(s0.g[n]) then Told(OutcomeOf(s0.g[n]), s0.g[n].obj)
    else
      match n.def
      case Leaf(source) => Told(source, None)
      case Computed(_, _) => TellFrom(w, s0, n, [], [])
  }

  ghost function TellFrom(w: World, s0: Store, n: Node, h: seq<Lookup>, seen: seq<Option<Obj>>): Told
    requires Ranked(w) && s0.g.Keys == w.nodes && n in w.nodes && n.def.Computed? && |h| == |seen| <= n.def.bound
    decreases w.rank[n], 1, n.def.bound - |h|
  {
    match Verdict(n, h)
    case Some(o) => Told(o, ResultObj(n, h, seen))
    case None =>
      var sight := TellLook(w, s0, n, h, seen);
      TellFrom(w, s0, n, h + [sight.look], seen + [sight.obj])
  }

  ghost function ResultObj(n: Node, h: seq<Lookup>, seen: seq<Option<Obj>>): Option<Obj>
    requires n.def.Computed?
  {
    var a := n.def.step(h);
    if a.Return? && a.from.Some? then SharedAt(seen, a.from.value) else None
  }

  ghost function TellLook(w: World, s0: Store, n: Node, h: seq<Lookup>, seen: seq<Option<Obj>>): Sight
    requires Ranked(w) && s0.g.Keys == w.nodes && n in w.nodes && n.def.Computed? && Looks(n, h)
    decreases w.rank[n], 0, 0
  {
    TargetRank(w, n, h);
    var a := n.def.step(h);
    if Blind(n, h) then Sight(Missing, None)
    else
      var held := if a.Member? then Remembered(s0.mem, SharedAt(seen, a.via), a.name) else None;
      if held.Some? then Sight(Found(held.value.value), held.value.obj)
      else if a.name in w.kids then Show(Tell(w, s0, w.kids[a.name]))
      else Sight(Missing, None)
  }

  lemma TellStep(w: World, s0: Store, n: Node, h: seq<Lookup>, seen: seq<Option<Obj>>)
    requires Ranked(w) && s0.g.Keys == w.nodes && n in w.nodes && n.def.Computed? && |h| == |seen| <= n.def.bound
    ensures Verdict(n, h).Some? ==> TellFrom(w, s0, n, h, seen).outcome == Verdict(n, h).value
    ensures Verdict(n, h).None? ==>
      var sight := TellLook(w, s0, n, h, seen);
      TellFrom(w, s0, n, h, seen) == TellFrom(w, s0, n, h + [sight.look], seen + [sight.obj])
  {
    hide TellLook, Ranked;
  }

  // ---- Struct values come from earlier evaluations ---------------------------

  predicate Below(o: Option<Obj>, clock: nat)
  {
    o.Some? ==> o.value.run < clock
  }

  ghost predicate MemoryOk(mem: Memory)
  {
    forall o, name :: Entry(mem, o, name).Some? ==> o.run < mem.clock && Below(Entry(mem, o, name).value.obj, mem.clock)
  }

  function Entry(mem: Memory, o: Obj, name: Name): Option<Held>
  {
    Remembered(mem, Some(o), name)
  }

  /** Value instances keep struct values of earlier evaluations, and only when resolved. */
  ghost predicate StoreOk(s: Store)
  {
    && MemoryOk(s.mem)
    && (forall n :: n in s.g ==> Below(s.g[n].obj, s.mem.clock))
    && (forall n :: n in s.g && (n.def.Leaf? || s.g[n].state in {Unresolved, Resolving}) ==> s.g[n].obj == None)
  }

  ghost predicate AllBelow(seen: seq<Option<Obj>>, clock: nat)
  {
    forall i :: 0 <= i < |seen| ==> Below(seen[i], clock)
  }

  lemma {:induction false} ResolveStoreOk(kids: Kids, s: Store, stack: seq<Node>, n: Node)
    requires kids.Values <= s.g.Keys && StackInside(s.g, stack) && n in s.g && StoreOk(s)
    ensures var s' := ResolveF(kids, s, stack, n); StoreOk(s') && s.mem.clock <= s'.mem.clock
    decreases Waiting(s.g), 0, 0
  {
    hide RunF, MemoryOk;
    if s.g[n].state == Unresolved && n.def.Computed? {
      var s1 := Started(s, n);
      assert n in Waiting(s.g) && n !in Waiting(s1.g);
      LaterOk(s.mem, s1.mem);
      RunStoreOk(kids, s1, stack + [n], n, s.mem.clock, [], []);
      ResolveStarts(kids, s, stack, n);
    }
  }

  lemma LaterOk(mem: Memory, mem': Memory)
    requires MemoryOk(mem) && mem'.memos == mem.memos && mem.clock <= mem'.clock
    ensures MemoryOk(mem')
  {
    forall o, name | Entry(mem', o, name).Some? ensures o.run < mem'.clock && Below(Entry(mem', o, name).value.obj, mem'.clock) {
      assert Entry(mem', o, name) == Entry(mem, o, name);
    }
  }

  lemma {:induction false} RunStoreOk(kids: Kids, s: Store, stack: seq<Node>, n: Node, run: nat, h: seq<Lookup>, seen: seq<Option<Obj>>)
    requires kids.Values <= s.g.Keys && StackInside(s.g, stack) && n in s.g && n.def.Computed? && |h| == |seen| <= n.def.bound
    requires StoreOk(s) && run < s.mem.clock && AllBelow(seen, s.mem.clock)
    ensures var s' := RunF(kids, s, stack, n, run, h, seen); StoreOk(s') && s.mem.clock <= s'.mem.clock
    decreases Waiting(s.g), 4, n.def.bound - |h|
  {
    hide MemoryOk, StoreOk, LookF, Finished, StackInside;
    match Verdict(n, h) {
      case Some(o) => FinishedOk(s, n, run, h, seen, o);
      case None =>
        var (sight, s2) := LookF(kids, s, stack, n.def.step(h), run, h, seen);
        LookStoreOk(kids, s, stack, n.def.step(h), run, h, seen);
        assert StackInside(s2.g, stack) by { StillInside(s.g, s2.g, stack); }
        RunStoreOk(kids, s2, stack, n, run, h + [sight.look], seen + [sight.obj]);
    }
  }

  lemma StillInside(g: Graph, h: Graph, stack: seq<Node>)
    requires g.Keys == h.Keys && StackInside(g, stack)
    ensures StackInside(h, stack)
  {}

  lemma {:induction false} LookStoreOk(kids: Kids, s: Store, stack: seq<Node>, a: Action, run: nat, h: seq<Lookup>, seen: seq<Option<Obj>>)
    requires kids.Values <= s.g.Keys && StackInside(s.g, stack) && (a.Peek? || a.Member?)
    requires StoreOk(s) && run < s.mem.clock && AllBelow(seen, s.mem.clock)
    ensures var (sight, s2) := LookF(kids, s, stack, a, run, h, seen);
            StoreOk(s2) && s.mem.clock <= s2.mem.clock && Below(sight.obj, s2.mem.clock)
    decreases Waiting(s.g), 3, 0
  {
    hide ChildF, StoreOk, StackInside;
    var (sight, s2) := ChildF(kids, s, stack, a.name, a.Member?);
    ChildStoreOk(kids, s, stack, a.name, a.Member?);
    if a.Member? && ViaOk(h, a.via) {
      var o := SharedAt(seen, a.via);
      if Remembered(s.mem, o, a.name).Some? {
        HeldBelow(s, o.value, a.name);
      } else if o.Some? && sight.look.Found? {
        RememberOk(s2, o.value, a.name, Held(sight.look.v, Lasting(sight, run, |h|).obj));
      }
    }
  }

  lemma HeldBelow(s: Store, o: Obj, name: Name)
    requires StoreOk(s) && Remembered(s.mem, Some(o), name).Some?
    ensures Below(Remembered(s.mem, Some(o), name).value.obj, s.mem.clock)
  {
    assert Entry(s.mem, o, name).Some?;
  }

  lemma RememberOk(s: Store, o: Obj, name: Name, held: Held)
    requires StoreOk(s) && o.run < s.mem.clock && Below(held.obj, s.mem.clock)
    ensures StoreOk(s.(mem := Remember(s.mem, o, name, held)))
  {
    var mem := Remember(s.mem, o, name, held);
    forall o', name' | Entry(mem, o', name').Some? ensures o'.run < mem.clock && Below(Entry(mem, o', name').value.obj, mem.clock) {
      RememberEntry(s.mem, o, name, held, o', name');
      assert Entry(s.mem, o', name').Some? ==> o'.run < mem.clock;
    }
  }

  lemma RememberEntry(mem: Memory, o: Obj, name: Name, held: Held, o': Obj, name': Name)
    ensures Entry(Remember(mem, o, name, held), o', name') ==
            if o' == o && name' == name then Some(held) else Entry(mem, o', name')
  {}

  lemma {:induction false} ChildStoreOk(kids: Kids, s: Store, stack: seq<Node>, name: Name, recorded: bool)
    requires kids.Values <= s.g.Keys && StackInside(s.g, stack) && StoreOk(s)
    ensures var (sight, s2) := ChildF(kids, s, stack, name, recorded);
            StoreOk(s2) && s.mem.clock <= s2.mem.clock && Below(sight.obj, s2.mem.clock)
    decreases Waiting(s.g), 1, 0
  {
    hide ResolveF, MemoryOk;
    if name in kids && !(!recorded && s.g[kids[name]].state == Resolving) {
      var c := kids[name];
      var s1 := if recorded then s.(g := EdgeAdded(s.g, stack, c)) else s;
      EdgeKeepsWaiting(s.g, stack, c);
      ResolveStoreOk(kids, s1, stack, c);
    }
  }

  lemma FinishedOk(s: Store, n: Node, run: nat, h: seq<Lookup>, seen: seq<Option<Obj>>, o: Outcome)
    requires n in s.g && n.def.Computed? && |h| == |seen| && StoreOk(s) && run < s.mem.clock && AllBelow(seen, s.mem.clock)
    ensures StoreOk(Finished(s, n, run, h, seen, o)) && Finished(s, n, run, h, seen, o).mem.clock == s.mem.clock
  {
    hide MemoryOk, Published;
    var a := n.def.step(h);
    if a.Return? {
      assert Below(Origin(run, seen, a.from), s.mem.clock);
      PublishedOk(s.mem, n, run, h, seen, a.from);
    }
  }

  lemma PublishedOk(mem: Memory, n: Node, run: nat, h: seq<Lookup>, seen: seq<Option<Obj>>, from: Option<Ref>)
    requires n.def.Computed? && |h| == |seen| && MemoryOk(mem) && run < mem.clock && AllBelow(seen, mem.clock)
    ensures MemoryOk(Published(mem, n, run, h, seen, from))
  {
    hide Entries, KeptRef;
    var mem' := Published(mem, n, run, h, seen, from);
    forall o, name | Entry(mem', o, name).Some? ensures o.run < mem'.clock && Below(Entry(mem', o, name).value.obj, mem'.clock) {
      PublishedEntry(mem, n, run, h, seen, from, o, name);
      if Entry(mem', o, name) != Entry(mem, o, name) {
        var j :| 0 <= j < |h| && FoundThrough(n, h, o.ref, j) && Entry(mem', o, name).value == Held(h[j].v, PlaceOf(run, h, seen, j));
        assert Below(PlaceOf(run, h, seen, j), mem.clock);
      }
    }
  }

  /** A new entry is a lookup of the evaluation, through a struct value it made. */
  lemma PublishedEntry(mem: Memory, n: Node, run: nat, h: seq<Lookup>, seen: seq<Option<Obj>>, from: Option<Ref>, o: Obj, name: Name)
    requires n.def.Computed? && |h| == |seen|
    ensures var e := Entry(Published(mem, n, run, h, seen, from), o, name);
            e == Entry(mem, o, name) ||
            (o.run == run && from.Some? && KeptRef(n, h, seen, from.value, o.ref) && SharedAt(seen, o.ref).None? &&
             (e.Some? ==> exists j :: 0 <= j < |h| && FoundThrough(n, h, o.ref, j) && n.def.step(h[..j]).name == name &&
                                      e.value == Held(h[j].v, PlaceOf(run, h, seen, j))))
  {
    hide Entries, KeptRef, PlaceOf, FoundThrough;
    if from.Some? && SharedAt(seen, from.value).None? {
      var added := NewMemos(n, run, h, seen, from.value);
      if o in added {
        KeptPrivate(n, h, seen, from.value, o.ref);
        if name in added[o] { EntriesFrom(n, run, h, seen, o.ref, |h|, name); }
      }
    }
  }

  lemma {:induction false} KeptPrivate(n: Node, h: seq<Lookup>, seen: seq<Option<Obj>>, from: Ref, r: Ref)
    requires n.def.Computed? && |h| == |seen| && KeptRef(n, h, seen, from, r) && SharedAt(seen, from).None?
    ensures SharedAt(seen, r).None?
  {}

  lemma {:induction false} EntriesFrom(n: Node, run: nat, h: seq<Lookup>, seen: seq<Option<Obj>>, r: Ref, k: nat, name: Name)
    requires n.def.Computed? && k <= |h| == |seen| && name in Entries(n, run, h, seen, r, k)
    ensures exists j :: 0 <= j < k && FoundThrough(n, h, r, j) && n.def.step(h[..j]).name == name &&
                        Entries(n, run, h, seen, r, k)[name] == Held(h[j].v, PlaceOf(run, h, seen, j))
  {
    hide PlaceOf, FoundThrough;
    if !(FoundThrough(n, h, r, k - 1) && ThroughName(n, h, r, k - 1) == name) {
      EntriesFrom(n, run, h, seen, r, k - 1, name);
    }
  }

  function ThroughName(n: Node, h: seq<Lookup>, r: Ref, j: nat): Name
    requires n.def.Computed? && j < |h| && FoundThrough(n, h, r, j)
  {
    n.def.step(h[..j]).name
  }

  // ---- A resolution answers as told ------------------------------------------

  /** The struct value at hand is the one told of; where none was told of it is new. */
  predicate Fits(s0: Store, obj: Option<Obj>, told: Option<Obj>)
  {
    if told.Some? then obj == told else obj.None? || obj.value.run >= s0.mem.clock
  }

  ghost predicate HeldFits(w: World, s0: Store, held: Held, c: Node)
    requires Ranked(w) && s0.g.Keys == w.nodes && c in w.nodes
  {
    var t := Show(Tell(w, s0, c));
    t.look == Found(held.value) && Fits(s0, held.obj, t.obj)
  }

  /** What is remembered was remembered before, or is what the child is told to be. */
  ghost predicate MemoryAsTold(w: World, s0: Store, mem: Memory)
    requires Ranked(w) && s0.g.Keys == w.nodes
  {
    forall o, name :: EntryAsTold(w, s0, mem, o, name)
  }

  ghost predicate EntryAsTold(w: World, s0: Store, mem: Memory, o: Obj, name: Name)
    requires Ranked(w) && s0.g.Keys == w.nodes
  {
    var before, now := Entry(s0.mem, o, name), Entry(mem, o, name);
    if before.Some? then now == before
    else now.Some? ==> name in w.kids && w.kids[name] in w.nodes && HeldFits(w, s0, now.value, w.kids[name])
  }

  ghost predicate CellAsTold(w: World, s0: Store, c: Cell, n: Node)
    requires Ranked(w) && s0.g.Keys == w.nodes && n in w.nodes && Settled(c)
  {
    OutcomeOf(c) == Tell(w, s0, n).outcome && Fits(s0, c.obj, Tell(w, s0, n).obj)
  }

  /** Everything settled in `s` is as `s0` told. */
  ghost predicate AsTold(w: World, s0: Store, s: Store)
    requires Ranked(w) && s0.g.Keys == w.nodes
  {
    && s.g.Keys == w.nodes && s0.mem.clock <= s.mem.clock && MemoryAsTold(w, s0, s.mem)
    && forall n :: n in w.nodes && Settled(s.g[n]) ==> CellAsTold(w, s0, s.g[n], n)
  }

  /** Nodes being resolved, other than `n`, have a higher rank. */
  ghost predicate OthersAbove(w: World, g: Graph, n: Node)
    requires Ranked(w) && g.Keys == w.nodes && n in w.nodes
  {
    forall m :: m in g && g[m].state == Resolving && m != n ==> w.rank[m] > w.rank[n]
  }

  ghost predicate SameRunningBut(g: Graph, h: Graph, n: Node)
    requires g.Keys == h.Keys
  {
    forall m :: m in g && m != n ==> (g[m].state == Resolving <==> h[m].state == Resolving)
  }

  ghost predicate SameRunning(g: Graph, h: Graph)
    requires g.Keys == h.Keys
  {
    forall m :: m in g ==> (g[m].state == Resolving <==> h[m].state == Resolving)
  }

  /** What is unsettled was unsettled. */
  ghost predicate UnsettledBefore(s0: Store, s: Store)
  {
    s0.g.Keys == s.g.Keys && forall n :: n in s.g && !Settled(s.g[n]) ==> !Settled(s0.g[n])
  }

  /** A store on the way from `s0`. */
  ghost predicate OnTheWay(w: World, s0: Store, s: Store)
  {
    Ranked(w) && s0.g.Keys == w.nodes && AsTold(w, s0, s) && MemoryOk(s0.mem) && StoreOk(s) && UnsettledBefore(s0, s)
  }

  /** With acyclic lookups a resolution answers as told: caches, kept struct values and what
      they remember. No cycle is reported. */
  lemma {:induction false} ResolveTells(w: World, s0: Store, s: Store, stack: seq<Node>, n: Node)
    requires OnTheWay(w, s0, s) && WellFormed(s.g, stack) && StackInside(s.g, stack) && n in s.g
    requires OthersAbove(w, s.g, n) && s.g[n].state != Resolving
    ensures w.kids.Values <= w.nodes
    ensures var s' := ResolveF(w.kids, s, stack, n); OnTheWay(w, s0, s') && SameRunning(s.g, s'.g)
    decreases Waiting(s.g), 0, 0
  {
    hide RunF, Ranked, Tell, TellFrom, WellFormed, MemoryAsTold, MemoryOk, Settled;
    RankedKids(w);
    ResolveStoreOk(w.kids, s, stack, n);
    ResolveForm(w.kids, s, stack, n);
    var s' := ResolveF(w.kids, s, stack, n);
    SettlesMore(w, s0, s, s');
    if s.g[n].state == Unresolved {
      UnresolvedUnsettled(s.g[n]);
      if n.def.Leaf? {
        ResolveCases(w.kids, s, stack, n);
        LeafTold(w, s0, n);
        StoreAsTold(w, s0, s, s', n);
      } else {
        var s1 := Started(s, n);
        BeginForm(s.g, stack, n);
        StartedOnTheWay(w, s0, s, n);
        ResolveStarts(w.kids, s, stack, n);
        ComputedTold(w, s0, n);
        RunTells(w, s0, s1, stack, n, s.mem.clock, [], [], []);
        SettledRuns(s, s', n);
      }
    } else {
      ResolveCases(w.kids, s, stack, n);
    }
  }

  lemma UnresolvedUnsettled(c: Cell)
    requires c.state == Unresolved || c.state == Resolving
    ensures !Settled(c)
  {}

  lemma SettlesMore(w: World, s0: Store, s: Store, s': Store)
    requires UnsettledBefore(s0, s) && Progress(s.g, s'.g)
    ensures UnsettledBefore(s0, s')
  {
    forall m | m in s'.g && !Settled(s'.g[m]) ensures !Settled(s0.g[m]) { assert Advanced(m, s.g[m], s'.g[m]); }
  }

  lemma LeafTold(w: World, s0: Store, n: Node)
    requires Ranked(w) && s0.g.Keys == w.nodes && n in w.nodes && n.def.Leaf? && !Settled(s0.g[n])
    ensures Tell(w, s0, n) == Told(n.def.source, None)
  {}

  lemma ComputedTold(w: World, s0: Store, n: Node)
    requires Ranked(w) && s0.g.Keys == w.nodes && n in w.nodes && n.def.Computed? && !Settled(s0.g[n])
    ensures Tell(w, s0, n) == TellFrom(w, s0, n, [], [])
  {}

  /** A leaf is stored as told. */
  lemma StoreAsTold(w: World, s0: Store, s: Store, s': Store, n: Node)
    requires OnTheWay(w, s0, s) && n in s.g && s.g[n].state == Unresolved && n.def.Leaf?
    requires s' == s.(g := Stored(s.g, n, n.def.source)) && Tell(w, s0, n) == Told(n.def.source, None)
    ensures AsTold(w, s0, s') && SameRunning(s.g, s'.g)
  {
    hide Ranked, Tell, MemoryAsTold, MemoryOk;
    assert s.g[n].obj == None;
    forall m | m in w.nodes && Settled(s'.g[m]) ensures CellAsTold(w, s0, s'.g[m], m) {
      if m != n { assert CellAsTold(w, s0, s.g[m], m); }
    }
  }

  lemma StartedOnTheWay(w: World, s0: Store, s: Store, n: Node)
    requires OnTheWay(w, s0, s) && n in s.g && s.g[n].state == Unresolved && OthersAbove(w, s.g, n)
    ensures OnTheWay(w, s0, Started(s, n)) && OthersAbove(w, Started(s, n).g, n)
  {
    hide Ranked, Tell;
    var s1 := Started(s, n);
    LaterOk(s.mem, s1.mem);
    forall o, name ensures EntryAsTold(w, s0, s1.mem, o, name) {
      assert EntryAsTold(w, s0, s.mem, o, name);
      assert Entry(s1.mem, o, name) == Entry(s.mem, o, name);
    }
    forall m | m in w.nodes && Settled(s1.g[m]) ensures CellAsTold(w, s0, s1.g[m], m) {
      assert CellAsTold(w, s0, s.g[m], m);
    }
  }

  lemma SettledRuns(s: Store, s': Store, n: Node)
    requires n in s.g && s.g[n].state == Unresolved && s.g.Keys == s'.g.Keys && Settled(s'.g[n])
    requires SameRunningBut(Started(s, n).g, s'.g, n)
    ensures SameRunning(s.g, s'.g)
  {}

  ghost predicate AllFit(s0: Store, seen: seq<Option<Obj>>, told: seq<Option<Obj>>)
  {
    |seen| == |told| && forall i :: 0 <= i < |seen| ==> Fits(s0, seen[i], told[i])
  }

  /** A member found through a struct value of this evaluation is as told. */
  ghost predicate PastAsTold(w: World, s0: Store, n: Node, run: nat, h: seq<Lookup>, seen: seq<Option<Obj>>, j: nat)
    requires Ranked(w) && s0.g.Keys == w.nodes && n.def.Computed? && j < |h| == |seen|
  {
    var a := n.def.step(h[..j]);
    a.Member? && FoundThrough(n, h, a.via, j) && SharedAt(seen, a.via).None? ==>
      a.name in w.kids && w.kids[a.name] in w.nodes && HeldFits(w, s0, Held(h[j].v, PlaceOf(run, h, seen, j)), w.kids[a.name])
  }

  ghost predicate HistoryAsTold(w: World, s0: Store, n: Node, run: nat, h: seq<Lookup>, seen: seq<Option<Obj>>)
    requires Ranked(w) && s0.g.Keys == w.nodes && n.def.Computed? && |h| == |seen|
  {
    forall j :: 0 <= j < |h| ==> PastAsTold(w, s0, n, run, h, seen, j)
  }

  /** While evaluation `run` of `n` is under way. */
  ghost predicate Running(w: World, s0: Store, s: Store, stack0: seq<Node>, n: Node, run: nat, h: seq<Lookup>, seen: seq<Option<Obj>>, told: seq<Option<Obj>>)
  {
    && OnTheWay(w, s0, s) && n in s.g && n.def.Computed? && |h| == |seen| <= n.def.bound && n !in stack0
    && WellFormed(s.g, stack0 + [n]) && StackInside(s.g, stack0 + [n])
    && OthersAbove(w, s.g, n) && s.g[n].state == Resolving
    && s0.mem.clock <= run < s.mem.clock && AllBelow(seen, s.mem.clock) && AllFit(s0, seen, told)
    && HistoryAsTold(w, s0, n, run, h, seen)
  }

  lemma {:induction false} RunTells(w: World, s0: Store, s: Store, stack0: seq<Node>, n: Node, run: nat, h: seq<Lookup>, seen: seq<Option<Obj>>, told: seq<Option<Obj>>)
    requires Running(w, s0, s, stack0, n, run, h, seen, told) && w.kids.Values <= w.nodes
    requires TellFrom(w, s0, n, h, told) == Tell(w, s0, n)
    ensures var s' := RunF(w.kids, s, stack0 + [n], n, run, h, seen); OnTheWay(w, s0, s') && SameRunningBut(s.g, s'.g, n)
    decreases Waiting(s.g), 4, n.def.bound - |h|
  {
    hide OnTheWay, Running, Ranked, Tell, WellFormed, LookF, Finished, TellLook;
    RunningMeans(w, s0, s, stack0, n, run, h, seen, told);
    match Verdict(n, h) {
      case Some(o) => FinishTells(w, s0, s, stack0, n, run, h, seen, told, o);
      case None =>
        var (sight, s2) := LookF(w.kids, s, stack0 + [n], n.def.step(h), run, h, seen);
        LookTells(w, s0, s, stack0, n, run, h, seen, told);
        var t := TellLook(w, s0, n, h, told);
        RunTells(w, s0, s2, stack0, n, run, h + [sight.look], seen + [sight.obj], told + [t.obj]);
        RunningOn(s.g, s2.g, RunF(w.kids, s2, stack0 + [n], n, run, h + [sight.look], seen + [sight.obj]).g, n);
    }
  }

  lemma RunningMeans(w: World, s0: Store, s: Store, stack0: seq<Node>, n: Node, run: nat, h: seq<Lookup>, seen: seq<Option<Obj>>, told: seq<Option<Obj>>)
    requires Running(w, s0, s, stack0, n, run, h, seen, told)
    ensures Ranked(w) && s0.g.Keys == s.g.Keys == w.nodes && n in s.g && n.def.Computed?
    ensures |h| == |seen| == |told| <= n.def.bound && n !in stack0
    ensures WellFormed(s.g, stack0 + [n]) && StackInside(s.g, stack0 + [n])
  {
    hide Ranked, WellFormed, MemoryOk;
  }

  lemma RunningOn(a: Graph, b: Graph, c: Graph, n: Node)
    requires a.Keys == b.Keys == c.Keys && SameRunning(a, b) && SameRunningBut(b, c, n)
    ensures SameRunningBut(a, c, n)
  {}

  /** The outcome is stored, and what lasts of the struct values is remembered, as told. */
  lemma FinishTells(w: World, s0: Store, s: Store, stack0: seq<Node>, n: Node, run: nat, h: seq<Lookup>, seen: seq<Option<Obj>>, told: seq<Option<Obj>>, o: Outcome)
    requires Running(w, s0, s, stack0, n, run, h, seen, told) && Verdict(n, h) == Some(o)
    requires TellFrom(w, s0, n, h, told) == Tell(w, s0, n)
    ensures var s' := Finished(s, n, run, h, seen, o); OnTheWay(w, s0, s') && SameRunningBut(s.g, s'.g, n)
  {
    hide Ranked, Tell, WellFormed, MemoryOk, MemoryAsTold, Published, Settled, HistoryAsTold;
    var s' := Finished(s, n, run, h, seen, o);
    FinishedOk(s, n, run, h, seen, o);
    FinishedSettles(s, n, run, h, seen, o);
    FinishedMemory(w, s0, s, stack0, n, run, h, seen, told, o);
    FinishedCell(w, s0, s, stack0, n, run, h, seen, told, o);
    forall m | m in w.nodes && Settled(s'.g[m]) ensures CellAsTold(w, s0, s'.g[m], m) {
      if m != n { assert CellAsTold(w, s0, s.g[m], m); }
    }
  }

  lemma FinishedCell(w: World, s0: Store, s: Store, stack0: seq<Node>, n: Node, run: nat, h: seq<Lookup>, seen: seq<Option<Obj>>, told: seq<Option<Obj>>, o: Outcome)
    requires Running(w, s0, s, stack0, n, run, h, seen, told) && Verdict(n, h) == Some(o)
    requires TellFrom(w, s0, n, h, told) == Tell(w, s0, n)
    ensures var c := Finished(s, n, run, h, seen, o).g[n]; Settled(c) && CellAsTold(w, s0, c, n)
  {
    hide Ranked, Tell, WellFormed, MemoryOk, MemoryAsTold, Published, HistoryAsTold, AsTold;
    FinishedSettles(s, n, run, h, seen, o);
    assert s.g[n].obj == None;
  }

  lemma FinishedMemory(w: World, s0: Store, s: Store, stack0: seq<Node>, n: Node, run: nat, h: seq<Lookup>, seen: seq<Option<Obj>>, told: seq<Option<Obj>>, o: Outcome)
    requires Running(w, s0, s, stack0, n, run, h, seen, told) && Verdict(n, h) == Some(o)
    ensures MemoryAsTold(w, s0, Finished(s, n, run, h, seen, o).mem)
  {
    hide Ranked, Tell, WellFormed, Published, Entries, KeptRef, PlaceOf, HeldFits;
    var a := n.def.step(h);
    if a.Return? {
      var mem' := Published(s.mem, n, run, h, seen, a.from);
      forall o', name ensures EntryAsTold(w, s0, mem', o', name) {
        assert EntryAsTold(w, s0, s.mem, o', name);
        PublishedEntry(s.mem, n, run, h, seen, a.from, o', name);
        if Entry(mem', o', name) != Entry(s.mem, o', name) {
          assert Entry(s0.mem, o', name).None?;
          if Entry(mem', o', name).Some? {
            var j :| 0 <= j < |h| && FoundThrough(n, h, o'.ref, j) && n.def.step(h[..j]).name == name &&
                     Entry(mem', o', name).value == Held(h[j].v, PlaceOf(run, h, seen, j));
            assert PastAsTold(w, s0, n, run, h, seen, j);
          }
        }
      }
    }
  }

  /** One lookup of a running evaluation shows what it is told to. */
  lemma {:induction false} LookTells(w: World, s0: Store, s: Store, stack0: seq<Node>, n: Node, run: nat, h: seq<Lookup>, seen: seq<Option<Obj>>, told: seq<Option<Obj>>)
    requires Running(w, s0, s, stack0, n, run, h, seen, told) && w.kids.Values <= w.nodes && Verdict(n, h).None?
    ensures var (sight, s2) := LookF(w.kids, s, stack0 + [n], n.def.step(h), run, h, seen);
            var t := TellLook(w, s0, n, h, told);
            sight.look == t.look && SameRunning(s.g, s2.g) &&
            Running(w, s0, s2, stack0, n, run, h + [sight.look], seen + [sight.obj], told + [t.obj])
    decreases Waiting(s.g), 3, 0
  {
    hide OnTheWay, Running, Ranked, Tell, WellFormed, MemberF, ChildF, PastAsTold, Fits;
    RunningMeans(w, s0, s, stack0, n, run, h, seen, told);
    TargetRank(w, n, h);
    var a, stack := n.def.step(h), stack0 + [n];
    if Blind(n, h) {
      Unseen(w, s0, s, stack0, n, run, h, seen, told, Missing);
    } else if a.Peek? {
      if a.name in w.kids {
        PeekTells(w, s0, s, stack0, n, run, h, seen, told);
      } else {
        assert ChildF(w.kids, s, stack, a.name, false) == (Sight(Missing, None), s) by { NoChild(w.kids, s, stack, a.name, false); }
        Unseen(w, s0, s, stack0, n, run, h, seen, told, Missing);
      }
    } else {
      MemberTells(w, s0, s, stack0, n, run, h, seen, told);
    }
  }

  lemma SameRunningRefl(g: Graph)
    ensures SameRunning(g, g)
  {}

  /** A lookup that finds nothing. */
  lemma Unseen(w: World, s0: Store, s: Store, stack0: seq<Node>, n: Node, run: nat, h: seq<Lookup>, seen: seq<Option<Obj>>, told: seq<Option<Obj>>, look: Lookup)
    requires Running(w, s0, s, stack0, n, run, h, seen, told) && !look.Found? && |h| < n.def.bound
    ensures Running(w, s0, s, stack0, n, run, h + [look], seen + [None], told + [None]) && SameRunning(s.g, s.g)
  {
    hide Running, Ranked;
    RunningMeans(w, s0, s, stack0, n, run, h, seen, told);
    assert (h + [look])[|h|] == look;
    assert OnTheWay(w, s0, s) by { RunningStore(w, s0, s, stack0, n, run, h, seen, told); }
    Extends(w, s0, s, s, stack0, n, run, h, seen, told, Sight(look, None), None);
  }

  lemma RunningStore(w: World, s0: Store, s: Store, stack0: seq<Node>, n: Node, run: nat, h: seq<Lookup>, seen: seq<Option<Obj>>, told: seq<Option<Obj>>)
    requires Running(w, s0, s, stack0, n, run, h, seen, told)
    ensures OnTheWay(w, s0, s) && StoreOk(s) && OthersAbove(w, s.g, n) && s.g[n].state == Resolving
    ensures s0.mem.clock <= run < s.mem.clock && AllBelow(seen, s.mem.clock) && AllFit(s0, seen, told)
  {
    hide Ranked, WellFormed, MemoryOk, AsTold, HistoryAsTold;
  }

  /** The evaluation goes on behind one more lookup. */
  lemma Extends(w: World, s0: Store, s: Store, s2: Store, stack0: seq<Node>, n: Node, run: nat, h: seq<Lookup>, seen: seq<Option<Obj>>, told: seq<Option<Obj>>, sight: Sight, t: Option<Obj>)
    requires Running(w, s0, s, stack0, n, run, h, seen, told) && OnTheWay(w, s0, s2) && |h| < n.def.bound
    requires s.g.Keys == s2.g.Keys && WellFormed(s2.g, stack0 + [n]) && StackInside(s2.g, stack0 + [n]) && SameRunning(s.g, s2.g)
    requires s.mem.clock <= s2.mem.clock && Below(sight.obj, s2.mem.clock) && Fits(s0, sight.obj, t)
    requires PastAsTold(w, s0, n, run, h + [sight.look], seen + [sight.obj], |h|)
    ensures Running(w, s0, s2, stack0, n, run, h + [sight.look], seen + [sight.obj], told + [t])
  {
    hide Ranked, WellFormed, OnTheWay, PastAsTold, StackInside, Fits;
    WayNodes(w, s0, s2);
    var h', seen' := h + [sight.look], seen + [sight.obj];
    forall j | 0 <= j < |h'| ensures PastAsTold(w, s0, n, run, h', seen', j) {
      if j < |h| { PastKept(w, s0, n, run, h, seen, sight, j); }
    }
  }

  lemma PastKept(w: World, s0: Store, n: Node, run: nat, h: seq<Lookup>, seen: seq<Option<Obj>>, sight: Sight, j: nat)
    requires Ranked(w) && s0.g.Keys == w.nodes && n.def.Computed? && j < |h| == |seen| && PastAsTold(w, s0, n, run, h, seen, j)
    ensures PastAsTold(w, s0, n, run, h + [sight.look], seen + [sight.obj], j)
  {
    hide Ranked, HeldFits;
    assert (h + [sight.look])[..j] == h[..j];
  }

  lemma PeekTells(w: World, s0: Store, s: Store, stack0: seq<Node>, n: Node, run: nat, h: seq<Lookup>, seen: seq<Option<Obj>>, told: seq<Option<Obj>>)
    requires Running(w, s0, s, stack0, n, run, h, seen, told) && w.kids.Values <= w.nodes && Verdict(n, h).None?
    requires n.def.step(h).Peek? && n.def.step(h).name in w.kids
    ensures var (sight, s2) := ChildF(w.kids, s, stack0 + [n], n.def.step(h).name, false);
            var t := Show(Tell(w, s0, w.kids[n.def.step(h).name]));
            sight.look == t.look && SameRunning(s.g, s2.g) &&
            Running(w, s0, s2, stack0, n, run, h + [sight.look], seen + [sight.obj], told + [t.obj])
    decreases Waiting(s.g), 2, 0
  {
    hide OnTheWay, Running, Ranked, Tell, WellFormed, ChildF, Fits;
    RunningMeans(w, s0, s, stack0, n, run, h, seen, told);
    RunningStore(w, s0, s, stack0, n, run, h, seen, told);
    TargetRank(w, n, h);
    var a := n.def.step(h);
    var (sight, s2) := ChildF(w.kids, s, stack0 + [n], a.name, false);
    var t := Show(Tell(w, s0, w.kids[a.name]));
    ChildTells(w, s0, s, stack0, n, a.name, false);
    ChildForm(w.kids, s, stack0, n, a.name, false);
    ChildStoreOk(w.kids, s, stack0 + [n], a.name, false);
    assert (h + [sight.look])[..|h|] == h;
    Extends(w, s0, s, s2, stack0, n, run, h, seen, told, sight, t.obj);
  }

  lemma MemberTells(w: World, s0: Store, s: Store, stack0: seq<Node>, n: Node, run: nat, h: seq<Lookup>, seen: seq<Option<Obj>>, told: seq<Option<Obj>>)
    requires Running(w, s0, s, stack0, n, run, h, seen, told) && w.kids.Values <= w.nodes && Verdict(n, h).None?
    requires n.def.step(h).Member? && ViaOk(h, n.def.step(h).via)
    ensures var a := n.def.step(h);
            var (sight, s2) := MemberF(w.kids, s, stack0 + [n], SharedAt(seen, a.via), a.name, run, |h|);
            var t := TellLook(w, s0, n, h, told);
            sight.look == t.look && SameRunning(s.g, s2.g) &&
            Running(w, s0, s2, stack0, n, run, h + [sight.look], seen + [sight.obj], told + [t.obj])
    decreases Waiting(s.g), 2, 0
  {
    hide OnTheWay, Running, Ranked, Tell, WellFormed, ChildF, Fits, AllFit, PastAsTold;
    RunningMeans(w, s0, s, stack0, n, run, h, seen, told);
    RunningStore(w, s0, s, stack0, n, run, h, seen, told);
    TargetRank(w, n, h);
    var a, stack := n.def.step(h), stack0 + [n];
    var o := SharedAt(seen, a.via);
    HitAsTold(w, s0, s, seen, told, a.via, a.name);
    if Remembered(s.mem, o, a.name).Some? {
      var held := Remembered(s.mem, o, a.name).value;
      HeldBelow(s, o.value, a.name);
      SameRunningRefl(s.g);
      SharedPast(w, s0, n, run, h, seen, Sight(Found(held.value), held.obj));
      Extends(w, s0, s, s, stack0, n, run, h, seen, told, Sight(Found(held.value), held.obj), TellLook(w, s0, n, h, told).obj);
    } else if a.name !in w.kids {
      NoChild(w.kids, s, stack, a.name, true);
      Unseen(w, s0, s, stack0, n, run, h, seen, told, Missing);
    } else {
      MissTells(w, s0, s, stack0, n, run, h, seen, told);
    }
  }

  /** What is remembered was remembered before, or is as the child is told to be; what is not
      remembered was not. */
  lemma HitAsTold(w: World, s0: Store, s: Store, seen: seq<Option<Obj>>, told: seq<Option<Obj>>, via: Ref, name: Name)
    requires OnTheWay(w, s0, s) && AllFit(s0, seen, told) && Ranked(w) && s0.g.Keys == w.nodes
    ensures var held, before := Remembered(s.mem, SharedAt(seen, via), name), Remembered(s0.mem, SharedAt(told, via), name);
            && (before.Some? ==> held == before)
            && (held.Some? && before.None? ==> name in w.kids && w.kids[name] in w.nodes && HeldFits(w, s0, held.value, w.kids[name]))
            && (held.Some? && before.Some? ==> Fits(s0, held.value.obj, before.value.obj))
  {
    hide Ranked, Tell, HeldFits;
    var o, t := SharedAt(seen, via), SharedAt(told, via);
    assert Fits(s0, o, t);
    if o.Some? {
      assert EntryAsTold(w, s0, s.mem, o.value, name);
      assert Entry(s0.mem, o.value, name).Some? ==> o.value.run < s0.mem.clock;
    }
  }

  /** Through a shared struct value nothing is recorded in the history. */
  lemma SharedPast(w: World, s0: Store, n: Node, run: nat, h: seq<Lookup>, seen: seq<Option<Obj>>, sight: Sight)
    requires Ranked(w) && s0.g.Keys == w.nodes && n.def.Computed? && |h| == |seen| && n.def.step(h).Member?
    requires SharedAt(seen, n.def.step(h).via).Some?
    ensures PastAsTold(w, s0, n, run, h + [sight.look], seen + [sight.obj], |h|)
  {
    hide Ranked, HeldFits;
    assert (h + [sight.look])[..|h|] == h;
  }

  lemma OwnPast(w: World, s0: Store, n: Node, run: nat, h: seq<Lookup>, seen: seq<Option<Obj>>, sight: Sight)
    requires Ranked(w) && s0.g.Keys == w.nodes && n.def.Computed? && |h| == |seen| && n.def.step(h).Member?
    requires n.def.step(h).name in w.kids && w.kids[n.def.step(h).name] in w.nodes
    requires sight.look.Found? ==> HeldFits(w, s0, Held(sight.look.v, Lasting(sight, run, |h|).obj), w.kids[n.def.step(h).name])
    ensures PastAsTold(w, s0, n, run, h + [sight.look], seen + [sight.obj], |h|)
  {
    hide Ranked, HeldFits;
    assert (h + [sight.look])[..|h|] == h;
  }

  lemma LastingFits(w: World, s0: Store, c: Node, sight: Sight, run: nat, i: nat)
    requires Ranked(w) && s0.g.Keys == w.nodes && c in w.nodes && run >= s0.mem.clock && sight.look.Found?
    requires var t := Show(Tell(w, s0, c)); sight.look == t.look && Fits(s0, sight.obj, t.obj)
    ensures var lasting := Lasting(sight, run, i);
            lasting.look == sight.look && HeldFits(w, s0, Held(sight.look.v, lasting.obj), c) &&
            Fits(s0, lasting.obj, Show(Tell(w, s0, c)).obj)
  {
    hide Ranked, Tell;
  }

  lemma MissTells(w: World, s0: Store, s: Store, stack0: seq<Node>, n: Node, run: nat, h: seq<Lookup>, seen: seq<Option<Obj>>, told: seq<Option<Obj>>)
    requires Running(w, s0, s, stack0, n, run, h, seen, told) && w.kids.Values <= w.nodes && Verdict(n, h).None?
    requires n.def.step(h).Member? && ViaOk(h, n.def.step(h).via) && n.def.step(h).name in w.kids
    requires Remembered(s.mem, SharedAt(seen, n.def.step(h).via), n.def.step(h).name).None?
    ensures var a := n.def.step(h);
            var (sight, s2) := MemberF(w.kids, s, stack0 + [n], SharedAt(seen, a.via), a.name, run, |h|);
            var t := Show(Tell(w, s0, w.kids[a.name]));
            sight.look == t.look && SameRunning(s.g, s2.g) &&
            Running(w, s0, s2, stack0, n, run, h + [sight.look], seen + [sight.obj], told + [t.obj])
    decreases Waiting(s.g), 1, 1
  {
    hide OnTheWay, Running, Ranked, Tell, WellFormed, ChildF, Fits, AllFit, PastAsTold, HeldFits, StoreOk, Lasting;
    RunningMeans(w, s0, s, stack0, n, run, h, seen, told);
    RunningStore(w, s0, s, stack0, n, run, h, seen, told);
    TargetRank(w, n, h);
    var a, stack := n.def.step(h), stack0 + [n];
    var o, c := SharedAt(seen, a.via), w.kids[a.name];
    var (sight, s2) := ChildF(w.kids, s, stack, a.name, true);
    var t := Show(Tell(w, s0, c));
    ChildTells(w, s0, s, stack0, n, a.name, true);
    ChildForm(w.kids, s, stack0, n, a.name, true);
    ChildStoreOk(w.kids, s, stack, a.name, true);
    if sight.look.Found? { LastingFits(w, s0, c, sight, run, |h|); }
    if o.Some? && sight.look.Found? {
      var lasting := Lasting(sight, run, |h|);
      var s3 := s2.(mem := Remember(s2.mem, o.value, a.name, Held(lasting.look.v, lasting.obj)));
      SharedBelow(seen, a.via, s.mem.clock);
      LastingBelow(sight, run, |h|, s2.mem.clock);
      HitAsTold(w, s0, s, seen, told, a.via, a.name);
      NotBefore(w, s0, s, seen, told, a.via, a.name);
      RememberAsTold(w, s0, s2, o.value, a.name, Held(lasting.look.v, lasting.obj));
      SharedPast(w, s0, n, run, h, seen, lasting);
      Extends(w, s0, s, s3, stack0, n, run, h, seen, told, lasting, t.obj);
    } else {
      OwnPast(w, s0, n, run, h, seen, sight);
      Extends(w, s0, s, s2, stack0, n, run, h, seen, told, sight, t.obj);
    }
  }

  lemma SharedBelow(seen: seq<Option<Obj>>, via: Ref, clock: nat)
    requires AllBelow(seen, clock)
    ensures Below(SharedAt(seen, via), clock)
  {}

  lemma LastingBelow(sight: Sight, run: nat, i: nat, clock: nat)
    requires Below(sight.obj, clock) && run < clock
    ensures Below(Lasting(sight, run, i).obj, clock)
  {}

  /** What a struct value does not remember now it did not remember before. */
  lemma NotBefore(w: World, s0: Store, s: Store, seen: seq<Option<Obj>>, told: seq<Option<Obj>>, via: Ref, name: Name)
    requires OnTheWay(w, s0, s) && AllFit(s0, seen, told) && SharedAt(seen, via).Some?
    requires Remembered(s.mem, SharedAt(seen, via), name).None?
    ensures Entry(s0.mem, SharedAt(seen, via).value, name).None?
  {
    hide Ranked, Tell, HeldFits;
    assert EntryAsTold(w, s0, s.mem, SharedAt(seen, via).value, name);
  }

  lemma RememberAsTold(w: World, s0: Store, s: Store, o: Obj, name: Name, held: Held)
    requires OnTheWay(w, s0, s) && Ranked(w) && s0.g.Keys == w.nodes && name in w.kids && w.kids[name] in w.nodes
    requires HeldFits(w, s0, held, w.kids[name]) && Entry(s0.mem, o, name).None?
    requires o.run < s.mem.clock && Below(held.obj, s.mem.clock)
    ensures OnTheWay(w, s0, s.(mem := Remember(s.mem, o, name, held)))
  {
    hide Ranked, Tell, HeldFits, Remember;
    var s' := s.(mem := Remember(s.mem, o, name, held));
    RememberOk(s, o, name, held);
    RememberClock(s.mem, o, name, held);
    forall o', name' ensures EntryAsTold(w, s0, s'.mem, o', name') {
      assert EntryAsTold(w, s0, s.mem, o', name');
      RememberEntry(s.mem, o, name, held, o', name');
    }
  }

  lemma RememberClock(mem: Memory, o: Obj, name: Name, held: Held)
    ensures Remember(mem, o, name, held).clock == mem.clock
  {}

  /** A child shows what it is told to be. */
  lemma {:induction false} ChildTells(w: World, s0: Store, s: Store, stack0: seq<Node>, n: Node, name: Name, recorded: bool)
    requires OnTheWay(w, s0, s) && w.kids.Values <= w.nodes && n in s.g && n !in stack0
    requires WellFormed(s.g, stack0 + [n]) && StackInside(s.g, stack0 + [n])
    requires OthersAbove(w, s.g, n) && s.g[n].state == Resolving
    requires name in w.kids && w.kids[name] in w.nodes && w.rank[w.kids[name]] < w.rank[n]
    ensures var (sight, s2) := ChildF(w.kids, s, stack0 + [n], name, recorded);
            var t := Show(Tell(w, s0, w.kids[name]));
            sight.look == t.look && Fits(s0, sight.obj, t.obj) && OnTheWay(w, s0, s2) && SameRunning(s.g, s2.g)
    decreases Waiting(s.g), 1, 0
  {
    hide Ranked, Tell, WellFormed, ResolveF, AsTold, OnTheWay, Settled;
    assert Ranked(w) && s.g.Keys == s0.g.Keys == w.nodes by { WayNodes(w, s0, s); }
    var c, stack := w.kids[name], stack0 + [n];
    assert c != n && s.g[c].state != Resolving;
    var s1 := if recorded then s.(g := EdgeAdded(s.g, stack, c)) else s;
    EdgeKeepsForm(s.g, stack, c);
    EdgeKeepsWaiting(s.g, stack, c);
    if recorded { EdgeOnTheWay(w, s0, s, stack0, n, c); }
    ResolveTells(w, s0, s1, stack, c);
    ResolveForm(w.kids, s1, stack, c);
    var s2 := ResolveF(w.kids, s1, stack, c);
    ShownAsTold(w, s0, s2, c);
  }

  lemma WayNodes(w: World, s0: Store, s: Store)
    requires OnTheWay(w, s0, s)
    ensures Ranked(w) && s.g.Keys == s0.g.Keys == w.nodes && MemoryOk(s0.mem)
  {
    hide Ranked;
  }

  lemma ShownAsTold(w: World, s0: Store, s: Store, c: Node)
    requires OnTheWay(w, s0, s) && c in s.g && Settled(s.g[c])
    ensures var t := Show(Tell(w, s0, c)); Shown(s.g[c]).look == t.look && Fits(s0, Shown(s.g[c]).obj, t.obj)
  {
    hide Ranked, Tell;
    SettledLook(s.g[c]);
    assert CellAsTold(w, s0, s.g[c], c);
  }

  lemma EdgeOnTheWay(w: World, s0: Store, s: Store, stack0: seq<Node>, n: Node, c: Node)
    requires OnTheWay(w, s0, s) && n in s.g && c in s.g && c != n && StackInside(s.g, stack0 + [n])
    requires OthersAbove(w, s.g, n) && s.g[n].state == Resolving && w.rank[c] < w.rank[n]
    ensures var s1 := s.(g := EdgeAdded(s.g, stack0 + [n], c));
            OnTheWay(w, s0, s1) && OthersAbove(w, s1.g, c) && SameRunning(s.g, s1.g) && s1.g[c].state == s.g[c].state
  {
    hide Ranked, EdgeAdded, OnTheWay;
    WayNodes(w, s0, s);
    SameButEdges(s.g, stack0, n, c);
    SameOnTheWay(w, s0, s, s.(g := EdgeAdded(s.g, stack0 + [n], c)));
  }

  /** Nodes differ in their edges at most. */
  ghost predicate SameCells(g: Graph, h: Graph)
  {
    g.Keys == h.Keys && forall m :: m in g ==> h[m] == g[m].(deps := h[m].deps, rdeps := h[m].rdeps)
  }

  lemma SameButEdges(g: Graph, stack0: seq<Node>, n: Node, c: Node)
    requires c in g && StackInside(g, stack0 + [n])
    ensures SameCells(g, EdgeAdded(g, stack0 + [n], c))
  {}

  lemma SameOnTheWay(w: World, s0: Store, s: Store, s1: Store)
    requires OnTheWay(w, s0, s) && SameCells(s.g, s1.g) && s1.mem == s.mem
    ensures OnTheWay(w, s0, s1)
  {
    hide Ranked, Tell, MemoryAsTold, MemoryOk;
    forall m | m in w.nodes && Settled(s1.g[m]) ensures CellAsTold(w, s0, s1.g[m], m) {
      assert CellAsTold(w, s0, s.g[m], m);
    }
  }
}
