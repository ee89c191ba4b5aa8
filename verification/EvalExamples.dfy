/** Small trees: caches that go stale, and a cycle of reads. */
module EvalExamples {
  import opened EvalNode
  import opened EvalTree
  import opened EvalScratch
  import opened EvalTold
  import opened EvalCorrect
  import opened Options

  ghost function FreshStore(nodes: set<Node>): (s: Store)
    ensures s.g.Keys == nodes
  {
    Store(map n | n in nodes :: FRESH, Memory(map[], 0))
  }

  lemma FreshRests(w: World)
    requires w.kids.Values <= w.nodes && Ranked(w)
    ensures Resting(w, FreshStore(w.nodes)) && UpToDate(w, FreshStore(w.nodes).g)
  {
    hide Ranked, Scratch;
  }

  lemma AfterFirst(w: World, s: Store, commands: seq<Command>)
    requires Resting(w, s) && commands != [] && forall i :: 0 <= i < |commands| ==> CommandOk(w, commands[i])
    ensures After(w, s, commands) == After(w, Step(w, s, commands[0]), commands[1..])
  {}

  lemma AfterThree(w: World, s0: Store, s1: Store, s2: Store, commands: seq<Command>)
    requires Resting(w, s0) && |commands| == 3 && forall i :: 0 <= i < |commands| ==> CommandOk(w, commands[i])
    requires s1 == Step(w, s0, commands[0]) && s2 == Step(w, s1, commands[1])
    ensures After(w, s0, commands) == Step(w, s2, commands[2])
  {
    hide Step, Resting, CommandOk;
    AfterFirst(w, s0, commands);
    AfterFirst(w, s1, commands[1..]);
    AfterFirst(w, s2, commands[1..][1..]);
    AfterNone(w, Step(w, s2, commands[2]));
    assert commands[1..][1..][1..] == [];
  }

  lemma AfterNone(w: World, s: Store)
    requires Resting(w, s)
    ensures After(w, s, []) == s
  {}

  /** An edit resets every node with an edge to the edited one, and leaves the others. */
  lemma EditEffect(w: World, s: Store, n: Node, m: Node, v: Value)
    requires Resting(w, s) && n in w.nodes && m in w.nodes && n.def.Leaf? && m != n && Primitive(v)
    ensures var s' := Step(w, s, Edit(n, v));
            Linked(s.g) && s'.mem == s.mem && s'.g[n].state == Resolved && s'.g[n].value == v &&
            (m in Readers(s.g, n) ==> s'.g[m].state == Unresolved) &&
            (m !in Readers(s.g, n) ==> s'.g[m].state == s.g[m].state && s'.g[m].value == s.g[m].value && s'.g[m].obj == s.g[m].obj)
  {
    hide Readers, StoreOk, ResolveF;
  }

  lemma ReaderFound(g: Graph, n: Node, m: Node)
    requires Linked(g) && n in g && m in g[n].rdeps
    ensures m in Readers(g, n)
  {
    hide Dependents;
    SelfDependent(g, m);
  }

  lemma NoReaders(g: Graph, n: Node)
    requires Linked(g) && n in g && g[n].rdeps == {}
    ensures Readers(g, n) == {}
  {}

  // ---- A bare identifier -----------------------------------------------------

  const VAL := Name(0, "val")

  /** The value instance `val << 4`. */
  function ShiftBare(h: seq<Lookup>): Action
  {
    if h == [] then Peek(VAL)
    else match h[0]
         case Found(UintValue(u)) => Return(UintValue(16 * u), None)
         case _ => Fail("no value")
  }

  /** The same through a scope, `_root.val << 4`. */
  function ShiftRead(h: seq<Lookup>): Action
  {
    if h == [] then Member(Root, VAL) else ShiftBare(h)
  }

  ghost predicate ShiftWorld(w: World, val: Node, shl: Node, shift: seq<Lookup> -> Action)
  {
    && w == World({val, shl}, map[VAL := val], map[val := 0, shl := 1])
    && val != shl && val.def == Leaf(Good(UintValue(3))) && shl.def == Computed(shift, 1)
    && (shift == ShiftBare || shift == ShiftRead)
  }

  lemma ShiftWorldOk(w: World, val: Node, shl: Node, shift: seq<Lookup> -> Action)
    requires ShiftWorld(w, val, shl, shift)
    ensures Ranked(w) && Resting(w, FreshStore(w.nodes)) && UpToDate(w, FreshStore(w.nodes).g)
  {
    hide Scratch;
    forall h: seq<Lookup> | Looks(shl, h) ensures TargetBelow(w, shl, shl.def.step(h)) {}
    assert LooksBelow(w, shl) && LooksBelow(w, val);
    FreshRests(w);
  }

  lemma ShiftVerdicts(shl: Node, shift: seq<Lookup> -> Action, u: nat)
    requires shl.def == Computed(shift, 1) && (shift == ShiftBare || shift == ShiftRead)
    ensures Verdict(shl, []) == None && Looks(shl, []) && !Blind(shl, []) && shl.def.step([]).name == VAL
    ensures shl.def.step([]).Peek? <==> shift([]) == Peek(VAL)
    ensures shl.def.step([]).Member? ==> shl.def.step([]).via == Root
    ensures shl.def.step([Found(UintValue(u))]) == Return(UintValue(16 * u), None)
  {}

  /** From scratch, the instance follows the leaf. */
  lemma ShiftScratch(w: World, val: Node, shl: Node, shift: seq<Lookup> -> Action, env: Env, u: nat)
    requires ShiftWorld(w, val, shl, shift) && Ranked(w) && EnvOk(w, env) && env[val] == Good(UintValue(u))
    ensures Scratch(w, env, shl) == Good(UintValue(16 * u))
  {
    hide Ranked;
    ShiftVerdicts(shl, shift, u);
    LeafScratch(w, env, val);
    assert SeenBy(w, env, shl, []) == Found(UintValue(u));
    assert [] + [Found(UintValue(u))] == [Found(UintValue(u))];
    assert ScratchFrom(w, env, shl, [Found(UintValue(u))]) == Good(UintValue(16 * u));
  }

  /** Resolving the instance leaves an edge only if it read through a scope. */
  lemma ShiftResolved(w: World, val: Node, shl: Node, shift: seq<Lookup> -> Action)
    requires ShiftWorld(w, val, shl, shift)
    requires Resting(w, FreshStore(w.nodes))
    ensures var s := ResolveF(w.kids, FreshStore(w.nodes), [], shl);
            s.g[val].rdeps == (if shift([]) == Peek(VAL) then {} else {shl}) &&
            s.g[shl].state == Resolved && s.g[shl].value == UintValue(48)
  {
    hide WellFormed, StoreOk, RunF, LookF;
    var s0 := FreshStore(w.nodes);
    var s1, stack := Started(s0, shl), [] + [shl];
    ShiftVerdicts(shl, shift, 3);
    ResolveStarts(w.kids, s0, [], shl);
    ShiftLook(w, val, shl, shift, s1);
    var (sight, s2) := LookF(w.kids, s1, stack, shl.def.step([]), 0, [], []);
    RunStep(w.kids, s1, stack, shl, 0, [], []);
    assert stack == [shl] && [] + [sight.look] == [Found(UintValue(3))] && [] + [sight.obj] == [None];
    RunStep(w.kids, s2, stack, shl, 0, [Found(UintValue(3))], [None]);
  }

  lemma ShiftLook(w: World, val: Node, shl: Node, shift: seq<Lookup> -> Action, s: Store)
    requires ShiftWorld(w, val, shl, shift) && s.g.Keys == w.nodes && s.g[val] == FRESH && s.g[shl].state == Resolving
    ensures var (sight, s2) := LookF(w.kids, s, [shl], shl.def.step([]), 0, [], []);
            sight == Sight(Found(UintValue(3)), None) && s2.g.Keys == w.nodes &&
            s2.g[val].rdeps == (if shift([]) == Peek(VAL) then {} else {shl})
  {
    hide ResolveF, LookF, MemberF, ChildF;
    ShiftVerdicts(shl, shift, 3);
    LookStep(w.kids, s, [shl], shl.def.step([]), 0, [], []);
    if shl.def.step([]).Member? { MemberStep(w.kids, s, [shl], None, VAL, 0, 0); }
    ChildStep(w.kids, s, [shl], VAL, shl.def.step([]).Member?);
    var e := if shl.def.step([]).Member? then s.(g := EdgeAdded(s.g, [shl], val)) else s;
    assert {} + {shl} == {shl};
    assert e.g[val].state == Unresolved && StackInside(e.g, [shl]);
    ResolveCases(w.kids, e, [shl], val);
  }

  /** After `val` is set to 5, the resolved instance `val << 4` keeps the value of the old
      number: no edge led from the leaf to it. */
  lemma StaleCache(w: World, val: Node, shl: Node)
    requires ShiftWorld(w, val, shl, ShiftBare)
    ensures Ranked(w) && Resting(w, FreshStore(w.nodes))
    ensures var s := After(w, FreshStore(w.nodes), [Demand(shl), Edit(val, UintValue(5))]);
            s.g[val].value == UintValue(5) && s.g[shl].state == Resolved && s.g[shl].value == UintValue(48) &&
            Scratch(w, EnvOf(w, s.g), shl) == Good(UintValue(80)) && !UpToDate(w, s.g)
  {
    hide Ranked, Scratch, ResolveF, WellFormed, StoreOk, Readers;
    var s0 := FreshStore(w.nodes);
    ShiftWorldOk(w, val, shl, ShiftBare);
    ShiftResolved(w, val, shl, ShiftBare);
    var s1 := Step(w, s0, Demand(shl));
    var s2 := Step(w, s1, Edit(val, UintValue(5)));
    var commands := [Demand(shl), Edit(val, UintValue(5))];
    AfterFirst(w, s0, commands);
    AfterFirst(w, Step(w, s0, commands[0]), commands[1..]);
    AfterNone(w, Step(w, Step(w, s0, commands[0]), commands[1]));
    assert commands[1..][0] == commands[1] && commands[1..][1..] == [];
    EditEffect(w, s1, val, shl, UintValue(5));
    NoReaders(s1.g, val);
    ShiftScratch(w, val, shl, ShiftBare, EnvOf(w, s2.g), 5);
    assert !Right(w, s2.g, EnvOf(w, s2.g), shl);
  }

  /** Through a scope the edge is there, and the edit resets the instance. */
  lemma FreshCache(w: World, val: Node, shl: Node)
    requires ShiftWorld(w, val, shl, ShiftRead)
    ensures Resting(w, FreshStore(w.nodes))
    ensures After(w, FreshStore(w.nodes), [Demand(shl), Edit(val, UintValue(5))]).g[shl].state == Unresolved
  {
    hide Ranked, Scratch, ResolveF, WellFormed, StoreOk, Readers;
    var s0 := FreshStore(w.nodes);
    ShiftWorldOk(w, val, shl, ShiftRead);
    ShiftResolved(w, val, shl, ShiftRead);
    var s1 := Step(w, s0, Demand(shl));
    var commands := [Demand(shl), Edit(val, UintValue(5))];
    AfterFirst(w, s0, commands);
    AfterFirst(w, Step(w, s0, commands[0]), commands[1..]);
    AfterNone(w, Step(w, Step(w, s0, commands[0]), commands[1]));
    assert commands[1..][0] == commands[1] && commands[1..][1..] == [];
    EditEffect(w, s1, val, shl, UintValue(5));
    ReaderFound(s1.g, val, shl);
  }

  // ---- A member of an instance ---------------------------------------------------

  const R := Name(0, "r")

  const ROOT := StructValue(0, 0)

  /** The value instance `_root`. */
  function TheRoot(h: seq<Lookup>): Action
  {
    Return(ROOT, Some(Root))
  }

  /** The value instance `r.val`. */
  function ThroughR(h: seq<Lookup>): Action
  {
    if h == [] then Peek(R)
    else if |h| == 1 then (if ShowsStruct(h[0]) then Member(Seen(0, 0), VAL) else Fail("no struct"))
    else match h[1] case Found(v) => Return(v, None) case _ => Fail("no value")
  }

  ghost predicate MemberWorld(w: World, val: Node, r: Node, a: Node)
  {
    && w == World({val, r, a}, map[VAL := val, R := r], map[val := 0, r := 0, a := 1])
    && val != r && val != a && r != a
    && val.def == Leaf(Good(UintValue(3))) && r.def == Computed(TheRoot, 0) && a.def == Computed(ThroughR, 2)
  }

  lemma MemberWorldOk(w: World, val: Node, r: Node, a: Node)
    requires MemberWorld(w, val, r, a)
    ensures Ranked(w) && Resting(w, FreshStore(w.nodes)) && UpToDate(w, FreshStore(w.nodes).g)
  {
    hide Scratch;
    forall h: seq<Lookup> | Looks(a, h) ensures TargetBelow(w, a, a.def.step(h)) {}
    assert LooksBelow(w, a) && LooksBelow(w, r) && LooksBelow(w, val);
    FreshRests(w);
  }

  lemma MemberVerdicts(val: Node, r: Node, a: Node, v: Value)
    requires r.def == Computed(TheRoot, 0) && a.def == Computed(ThroughR, 2)
    ensures r.def.step([]) == Return(ROOT, Some(Root)) && Verdict(r, []) == Some(Good(ROOT))
    ensures Verdict(a, []) == None && Looks(a, []) && a.def.step([]) == Peek(R)
    ensures Verdict(a, [Found(ROOT)]) == None && Looks(a, [Found(ROOT)])
    ensures a.def.step([Found(ROOT)]) == Member(Seen(0, 0), VAL)
    ensures a.def.step([Found(ROOT), Found(v)]) == Return(v, None)
    ensures Verdict(a, [Found(ROOT), Found(v)]) == Some(Good(v))
  {}

  lemma MemberScratch(w: World, val: Node, r: Node, a: Node, env: Env, v: Value)
    requires MemberWorld(w, val, r, a) && Ranked(w) && EnvOk(w, env) && env[val] == Good(v) && v != NoValue
    ensures Scratch(w, env, a) == Good(v)
  {
    hide Ranked, ScratchFrom;
    MemberVerdicts(val, r, a, v);
    LeafScratch(w, env, val);
    ComputedScratch(w, env, r);
    ScratchStep(w, env, r, []);
    ComputedScratch(w, env, a);
    ScratchStep(w, env, a, []);
    assert SeenBy(w, env, a, []) == Found(ROOT);
    var h1 := [] + [Found(ROOT)];
    assert h1 == [Found(ROOT)];
    ScratchStep(w, env, a, h1);
    assert SeenBy(w, env, a, h1) == Found(v);
    assert h1 + [Found(v)] == [Found(ROOT), Found(v)];
    ScratchStep(w, env, a, h1 + [Found(v)]);
  }

  /** The struct value that `r` keeps when it is the second node to be evaluated. */
  const KEPT := Obj(1, Root)

  lemma RootResolved(w: World, val: Node, r: Node, a: Node, s: Store)
    requires MemberWorld(w, val, r, a) && s.g.Keys == w.nodes && s.g[r] == FRESH && s.mem == Memory(map[], 1)
    ensures ResolveF(w.kids, s, [a], r) ==
            Store(s.g[r := Cell(Resolved, ROOT, None, {}, {}, Some(KEPT))], Memory(map[KEPT := map[]], 2))
  {
    hide RunF, ResolveF, Published;
    MemberVerdicts(val, r, a, NoValue);
    ResolveStarts(w.kids, s, [a], r);
    RunStep(w.kids, Started(s, r), [a] + [r], r, 1, [], []);
    RootPublished(r);
  }

  lemma RootPublished(r: Node)
    requires r.def.Computed?
    ensures Published(Memory(map[], 2), r, 1, [], [], Some(Root)) == Memory(map[KEPT := map[]], 2)
  {
    assert Refs(r, [], Root) == {Root};
    assert NewMemos(r, 1, [], [], Root) == map[KEPT := map[]];
  }

  lemma PeekR(w: World, val: Node, r: Node, a: Node, s: Store)
    requires MemberWorld(w, val, r, a) && s.g.Keys == w.nodes && s.g[r] == FRESH && s.mem == Memory(map[], 1)
    ensures LookF(w.kids, s, [a], Peek(R), 0, [], []) ==
            (Sight(Found(ROOT), Some(KEPT)),
             Store(s.g[r := Cell(Resolved, ROOT, None, {}, {}, Some(KEPT))], Memory(map[KEPT := map[]], 2)))
  {
    hide ResolveF, LookF, ChildF;
    RootResolved(w, val, r, a, s);
    LookStep(w.kids, s, [a], Peek(R), 0, [], []);
    ChildStep(w.kids, s, [a], R, false);
  }

  lemma ReadVal(w: World, val: Node, r: Node, a: Node, s: Store)
    requires MemberWorld(w, val, r, a) && s.g.Keys == w.nodes && s.g[val] == FRESH && s.mem == Memory(map[KEPT := map[]], 2)
    ensures var (sight, s2) := LookF(w.kids, s, [a], Member(Seen(0, 0), VAL), 0, [Found(ROOT)], [Some(KEPT)]);
            sight == Sight(Found(UintValue(3)), None) && s2.g.Keys == w.nodes && s2.g[r] == s.g[r] &&
            s2.g[val].rdeps == {a} && s2.mem == Memory(map[KEPT := map[VAL := Held(UintValue(3), None)]], 2)
  {
    hide ResolveF, LookF, MemberF, ChildF, EdgeAdded, Remember;
    var e := s.(g := EdgeAdded(s.g, [a], val));
    ValEdge(w, val, r, a, s.g);
    ResolveCases(w.kids, e, [a], val);
    ChildStep(w.kids, s, [a], VAL, true);
    assert ChildF(w.kids, s, [a], VAL, true) == (Sight(Found(UintValue(3)), None), e.(g := Stored(e.g, val, Good(UintValue(3)))));
    RememberVal();
    LookStep(w.kids, s, [a], Member(Seen(0, 0), VAL), 0, [Found(ROOT)], [Some(KEPT)]);
    MemberStep(w.kids, s, [a], Some(KEPT), VAL, 0, 1);
  }

  lemma RememberVal()
    ensures Remembered(Memory(map[KEPT := map[]], 2), Some(KEPT), VAL) == None
    ensures Remember(Memory(map[KEPT := map[]], 2), KEPT, VAL, Held(UintValue(3), None)) ==
            Memory(map[KEPT := map[VAL := Held(UintValue(3), None)]], 2)
  {
    assert map[KEPT := map[]][KEPT := map[VAL := Held(UintValue(3), None)]] == map[KEPT := map[VAL := Held(UintValue(3), None)]];
  }

  lemma ValEdge(w: World, val: Node, r: Node, a: Node, g: Graph)
    requires MemberWorld(w, val, r, a) && g.Keys == w.nodes && g[val] == FRESH
    ensures StackInside(g, [a]) && var e := EdgeAdded(g, [a], val);
            StackInside(e, [a]) && e[val] == FRESH.(rdeps := {a}) && e[r] == g[r]
  {
    assert {} + {a} == {a};
  }

  /** The first resolution of `r.val`: an edge to `val`, and `r` remembers the member. */
  lemma MemberResolved(w: World, val: Node, r: Node, a: Node)
    requires MemberWorld(w, val, r, a) && Resting(w, FreshStore(w.nodes))
    ensures var s := ResolveF(w.kids, FreshStore(w.nodes), [], a);
            s.g[val].rdeps == {a} && s.g[r] == Cell(Resolved, ROOT, None, {}, {}, Some(KEPT)) &&
            s.g[a].value == UintValue(3) && s.mem == Memory(map[KEPT := map[VAL := Held(UintValue(3), None)]], 2)
  {
    hide WellFormed, StoreOk, RunF, LookF;
    var s0 := FreshStore(w.nodes);
    var s1, stack := Started(s0, a), [] + [a];
    MemberVerdicts(val, r, a, UintValue(3));
    ResolveStarts(w.kids, s0, [], a);
    assert stack == [a];
    PeekR(w, val, r, a, s1);
    var s2 := LookF(w.kids, s1, stack, Peek(R), 0, [], []).1;
    RunStep(w.kids, s1, stack, a, 0, [], []);
    assert [] + [Found(ROOT)] == [Found(ROOT)] && [] + [Some(KEPT)] == [Some(KEPT)];
    ReadVal(w, val, r, a, s2);
    var s3 := LookF(w.kids, s2, stack, Member(Seen(0, 0), VAL), 0, [Found(ROOT)], [Some(KEPT)]).1;
    RunStep(w.kids, s2, stack, a, 0, [Found(ROOT)], [Some(KEPT)]);
    assert [Found(ROOT)] + [Found(UintValue(3))] == [Found(ROOT), Found(UintValue(3))];
    assert [Some(KEPT)] + [None] == [Some(KEPT), None];
    RunStep(w.kids, s3, stack, a, 0, [Found(ROOT), Found(UintValue(3))], [Some(KEPT), None]);
  }

  /** Told again after an edit of `val`, `r.val` is what `r` remembers. */
  lemma ToldOld(w: World, val: Node, r: Node, a: Node, s: Store)
    requires MemberWorld(w, val, r, a) && Ranked(w) && s.g.Keys == w.nodes && s.g[a].state == Unresolved
    requires s.g[r].state == Resolved && s.g[r].value == ROOT && s.g[r].obj == Some(KEPT)
    requires s.mem == Memory(map[KEPT := map[VAL := Held(UintValue(3), None)]], 2)
    ensures Tell(w, s, a).outcome == Good(UintValue(3))
  {
    hide Ranked, TellFrom, Tell;
    MemberVerdicts(val, r, a, UintValue(3));
    SettledTold(w, s, r);
    ComputedTold(w, s, a);
    assert TellLook(w, s, a, [], []) == Sight(Found(ROOT), Some(KEPT));
    TellStep(w, s, a, [], []);
    var h1, o1 := [] + [Found(ROOT)], [] + [Some(KEPT)];
    assert h1 == [Found(ROOT)] && o1 == [Some(KEPT)];
    assert TellLook(w, s, a, h1, o1) == Sight(Found(UintValue(3)), None);
    TellStep(w, s, a, h1, o1);
    assert h1 + [Found(UintValue(3))] == [Found(ROOT), Found(UintValue(3))];
    TellStep(w, s, a, h1 + [Found(UintValue(3))], o1 + [None]);
  }

  /** `r` is `_root` and `a` is `r.val`. After `val` is set to 5, `a` is reset and resolved
      again, and has the old number: the struct value that `r` keeps remembers the member. */
  lemma StaleMember(w: World, val: Node, r: Node, a: Node)
    requires MemberWorld(w, val, r, a)
    ensures Ranked(w) && Resting(w, FreshStore(w.nodes))
    ensures var s := After(w, FreshStore(w.nodes), [Demand(a), Edit(val, UintValue(5)), Demand(a)]);
            s.g[val].value == UintValue(5) && s.g[a].state == Resolved && s.g[a].value == UintValue(3) &&
            Scratch(w, EnvOf(w, s.g), a) == Good(UintValue(5)) && !UpToDate(w, s.g)
  {
    hide Ranked, Scratch, ResolveF, WellFormed, StoreOk, Readers, Tell, Calm;
    var s0 := FreshStore(w.nodes);
    MemberWorldOk(w, val, r, a);
    MemberResolved(w, val, r, a);
    var s1 := Step(w, s0, Demand(a));
    var s2 := Step(w, s1, Edit(val, UintValue(5)));
    var s3 := Step(w, s2, Demand(a));
    var commands := [Demand(a), Edit(val, UintValue(5)), Demand(a)];
    AfterThree(w, s0, s1, s2, commands);
    EditEffect(w, s1, val, a, UintValue(5));
    EditEffect(w, s1, val, r, UintValue(5));
    ReaderFound(s1.g, val, a);
    ReadersOfVal(s1.g, val, r, a);
    ToldOld(w, val, r, a, s2);
    SecondDemand(w, val, r, a, s2);
  }

  lemma ReadersOfVal(g: Graph, val: Node, r: Node, a: Node)
    requires Linked(g) && {val, r, a} == g.Keys && r != val && r != a && g[val].rdeps == {a} && g[r].deps == {}
    ensures r !in Readers(g, val)
  {
    hide Dependents;
    if r in Readers(g, val) {
      ReadersClosed(g, val);
      var d :| d in g[val].rdeps && r in Dependents(g, d);
      OnlyByDeps(g, d, r);
    }
  }

  lemma OnlyByDeps(g: Graph, n: Node, m: Node)
    requires n in g && m in Dependents(g, n) && g[m].deps == {}
    ensures m == n
  {
    var k: nat :| m in Within(g, n, k);
    OnlyWithin(g, n, m, k);
  }

  lemma {:induction false} OnlyWithin(g: Graph, n: Node, m: Node, k: nat)
    requires n in g && m in g && m in Within(g, n, k) && g[m].deps == {}
    ensures m == n
  {
    if k > 0 && m in Within(g, n, k - 1) { OnlyWithin(g, n, m, k - 1); }
  }

  lemma SecondDemand(w: World, val: Node, r: Node, a: Node, s: Store)
    requires MemberWorld(w, val, r, a) && Ranked(w) && Resting(w, s) && s.g[a].state == Unresolved
    requires s.g[val].state == Resolved && s.g[val].value == UintValue(5)
    requires Tell(w, s, a).outcome == Good(UintValue(3))
    ensures var s' := Step(w, s, Demand(a));
            s'.g[val].value == UintValue(5) && s'.g[a].state == Resolved && s'.g[a].value == UintValue(3) &&
            Scratch(w, EnvOf(w, s'.g), a) == Good(UintValue(5)) && !UpToDate(w, s'.g)
  {
    hide Ranked, Scratch, ResolveF, WellFormed, StoreOk, Tell, Calm, MemoryAsTold, MemoryOk;
    DemandTells(w, s, a);
    var s' := Step(w, s, Demand(a));
    assert CellAsTold(w, s, s'.g[a], a);
    assert Advanced(val, s.g[val], s'.g[val]);
    MemberScratch(w, val, r, a, EnvOf(w, s'.g), UintValue(5));
    assert !Right(w, s'.g, EnvOf(w, s'.g), a);
  }

  // ---- A cycle of reads --------------------------------------------------------

  const A := Name(0, "a")
  const B := Name(0, "b")

  /** An instance that reads another one through the scope and needs its value. */
  function Needs(name: Name): seq<Lookup> -> Action
  {
    (h: seq<Lookup>) =>
      if h == [] then Member(Root, name) else match h[0] case Found(v) => Return(v, None) case _ => Fail("no value")
  }

  ghost predicate CycleTree(kids: Kids, a: Node, b: Node)
  {
    kids == map[A := a, B := b] && a != b && a.def == Computed(Needs(B), 1) && b.def == Computed(Needs(A), 1)
  }

  ghost function Two(a: Node, b: Node, ca: Cell, cb: Cell): (g: Graph)
    requires a != b
    ensures g.Keys == {a, b} && g[a] == ca && g[b] == cb
  {
    map[a := ca, b := cb]
  }

  lemma IsTwo(g: Graph, a: Node, b: Node, ca: Cell, cb: Cell)
    requires a != b && g.Keys == {a, b} && g[a] == ca && g[b] == cb
    ensures g == Two(a, b, ca, cb)
  {}

  ghost function CycleCell(state: State, err: Option<EvalError>, other: Node): Cell
  {
    Cell(state, NoValue, err, {other}, {other}, None)
  }

  lemma NeedsVerdicts(n: Node, name: Name)
    requires n.def == Computed(Needs(name), 1)
    ensures Verdict(n, []) == None && n.def.step([]) == Member(Root, name)
    ensures n.def.step([Null]) == Fail("no value")
  {}

  /** An instance whose read shows null fails. */
  lemma NeedsNull(kids: Kids, s: Store, stack: seq<Node>, n: Node, name: Name, s2: Store)
    requires kids.Values <= s.g.Keys && StackInside(s.g, stack) && n in s.g && n.def == Computed(Needs(name), 1)
    requires s.g[n].state == Unresolved && StackInside(Started(s, n).g, stack + [n])
    requires LookF(kids, Started(s, n), stack + [n], Member(Root, name), s.mem.clock, [], []) == (Sight(Null, None), s2)
    ensures n in s2.g && ResolveF(kids, s, stack, n) == s2.(g := Stored(s2.g, n, Bad(Failed("no value"))))
  {
    hide RunF, ResolveF, LookF;
    var s1, none: seq<Option<Obj>> := Started(s, n), [None];
    assert [] + [Null] == [Null] && [] + none == none;
    NeedsVerdicts(n, name);
    ResolveStarts(kids, s, stack, n);
    RunStep(kids, s1, stack + [n], n, s.mem.clock, [], []);
    RunStep(kids, s2, stack + [n], n, s.mem.clock, [Null], none);
  }

  const RUNS := Cell(Resolving, NoValue, None, {}, {}, None)

  const NO_VALUE := Some(Failed("no value"))

  /** The innermost step: `b` reads `a`, which is being resolved. The cycle error is stored
      in `a`, and `b` sees null. */
  lemma CycleMet(kids: Kids, a: Node, b: Node, mem: Memory, run: nat)
    requires CycleTree(kids, a, b)
    ensures var g := Two(a, b, RUNS.(deps := {b}), RUNS.(rdeps := {a}));
            LookF(kids, Store(g, mem), [a, b], Member(Root, A), run, [], []) ==
            (Sight(Null, None), Store(Two(a, b, CycleCell(Error, Some(Cycle), b), CycleCell(Resolving, None, a)), mem))
  {
    hide ResolveF, LookF, MemberF, ChildF, Two;
    var s := Store(Two(a, b, RUNS.(deps := {b}), RUNS.(rdeps := {a})), mem);
    var g1 := EdgeAdded(s.g, [a, b], a);
    assert {} + {a} == {a} && {} + {b} == {b};
    var g2 := Stored(g1, a, Bad(Cycle));
    ResolveCases(kids, Store(g1, mem), [a, b], a);
    LookStep(kids, s, [a, b], Member(Root, A), run, [], []);
    MemberStep(kids, s, [a, b], None, A, run, 0);
    ChildStep(kids, s, [a, b], A, true);
    IsTwo(g2, a, b, CycleCell(Error, Some(Cycle), b), CycleCell(Resolving, None, a));
  }

  /** Resolving `b` below `a`: it fails for want of a value. */
  lemma CycleInner(kids: Kids, a: Node, b: Node, mem: Memory)
    requires CycleTree(kids, a, b)
    ensures ResolveF(kids, Store(Two(a, b, RUNS.(deps := {b}), FRESH.(rdeps := {a})), mem), [a], b) ==
            Store(Two(a, b, CycleCell(Error, Some(Cycle), b), CycleCell(Error, NO_VALUE, a)), mem.(clock := mem.clock + 1))
  {
    hide LookF, RunF, ResolveF, Two;
    var s := Store(Two(a, b, RUNS.(deps := {b}), FRESH.(rdeps := {a})), mem);
    var s1 := Started(s, b);
    assert [a] + [b] == [a, b];
    IsTwo(s1.g, a, b, RUNS.(deps := {b}), RUNS.(rdeps := {a}));
    CycleMet(kids, a, b, s1.mem, mem.clock);
    var s2 := Store(Two(a, b, CycleCell(Error, Some(Cycle), b), CycleCell(Resolving, None, a)), s1.mem);
    NeedsNull(kids, s, [a], b, A, s2);
    IsTwo(Stored(s2.g, b, Bad(Failed("no value"))), a, b, CycleCell(Error, Some(Cycle), b), CycleCell(Error, NO_VALUE, a));
  }

  lemma CycleLook(kids: Kids, a: Node, b: Node, mem: Memory)
    requires CycleTree(kids, a, b)
    ensures LookF(kids, Store(Two(a, b, RUNS, FRESH), mem), [a], Member(Root, B), 0, [], []) ==
            (Sight(Null, None),
             Store(Two(a, b, CycleCell(Error, Some(Cycle), b), CycleCell(Error, NO_VALUE, a)), mem.(clock := mem.clock + 1)))
  {
    hide ResolveF, LookF, MemberF, ChildF, Two;
    var s := Store(Two(a, b, RUNS, FRESH), mem);
    LookStep(kids, s, [a], Member(Root, B), 0, [], []);
    MemberStep(kids, s, [a], None, B, 0, 0);
    ChildStep(kids, s, [a], B, true);
    var g2 := EdgeAdded(s.g, [a], b);
    assert {} + {a} == {a} && {} + {b} == {b};
    IsTwo(g2, a, b, RUNS.(deps := {b}), FRESH.(rdeps := {a}));
    CycleInner(kids, a, b, mem);
  }

  /** The whole resolution of `a`: both nodes end in an error, with an edge either way. */
  lemma CycleOuter(kids: Kids, a: Node, b: Node, s: Store)
    requires CycleTree(kids, a, b) && s == Store(Two(a, b, FRESH, FRESH), Memory(map[], 0))
    ensures ResolveF(kids, s, [], a).g == Two(a, b, CycleCell(Error, NO_VALUE, b), CycleCell(Error, NO_VALUE, a))
  {
    hide LookF, ResolveF, RunF, Two;
    var s1 := Started(s, a);
    assert [] + [a] == [a];
    IsTwo(s1.g, a, b, RUNS, FRESH);
    CycleLook(kids, a, b, s1.mem);
    var s2 := Store(Two(a, b, CycleCell(Error, Some(Cycle), b), CycleCell(Error, NO_VALUE, a)), Memory(map[], 2));
    NeedsNull(kids, s, [], a, B, s2);
    IsTwo(Stored(s2.g, a, Bad(Failed("no value"))), a, b, CycleCell(Error, NO_VALUE, b), CycleCell(Error, NO_VALUE, a));
  }

  /** Such a tree, built and resolved. */
  method BuildCycle() returns (t: Tree, a: Node, b: Node, err: Option<EvalError>)
    ensures t.Valid() && t.nodes == {a, b} && CycleTree(t.kids, a, b) && t.resolvingStack == []
    ensures a.state == b.state == Error && err == Some(Failed("no value"))
    ensures a.deps == a.rdeps == {b} && b.deps == b.rdeps == {a}
  {
    hide ResolveF, WellFormed, Progress, Two;
    a := new Node(Computed(Needs(B), 1));
    b := new Node(Computed(Needs(A), 1));
    t := new Tree({a, b}, map[A := a, B := b]);
    ghost var s := t.Here();
    assert s.g[a] == FRESH && s.g[b] == FRESH;
    IsTwo(s.g, a, b, FRESH, FRESH);
    CycleOuter(t.kids, a, b, s);
    err := t.Resolve(a);
    assert t.Now()[a] == a.Contents() && t.Now()[b] == b.Contents();
  }
}
