/** Lazy resolution: nodes are resolved on demand while other nodes are being resolved,
    and a member read through a scope leaves a dependency edge. */
module EvalTree {
  import opened EvalNode
  import opened Options

  /** The scopes' children. */
  type Kids = map<Name, Node>

  /** What a struct value remembers of a member. */
  datatype Held = Held(value: Value, obj: Option<Obj>)

  /** The struct values that outlive the evaluations that made them, with the members they
      remember. */
  datatype Memory = Memory(memos: map<Obj, map<Name, Held>>, clock: nat)

  /** What a lookup shows: the value, and which lasting struct value it is, if it is one. */
  datatype Sight = Sight(look: Lookup, obj: Option<Obj>)

  datatype Store = Store(g: Graph, mem: Memory)

  class Tree {
    /** All nodes. The graph is fixed: resolution creates no nodes. */
    ghost const nodes: set<Node>
    const kids: Kids
    var resolvingStack: seq<Node>
    /** The struct values that exprVal fields keep. */
    var memory: Memory

    ghost predicate Valid()
      reads this, nodes
    {
      kids.Values <= nodes && WellFormed(Snap(nodes), resolvingStack)
    }

    ghost function Now(): (g: Graph)
      reads this, nodes
      ensures g.Keys == nodes
    {
      Snap(nodes)
    }

    ghost function Here(): (s: Store)
      reads this, nodes
      ensures s.g.Keys == nodes
    {
      Store(Now(), memory)
    }

    /** The innermost node being resolved. */
    function Top(): Node
      requires |resolvingStack| > 0
      reads this
    {
      resolvingStack[|resolvingStack| - 1]
    }

    constructor (ghost all: set<Node>, children: Kids)
      requires children.Values <= all
      requires forall n :: n in all ==> n.Contents() == FRESH
      ensures nodes == all && kids == children && Valid() && resolvingStack == []
      ensures memory == Memory(map[], 0)
    {
      nodes, kids, resolvingStack, memory := all, children, [], Memory(map[], 0);
    }

    /** recordDep: the edge belongs to the node on top of the stack; no edge to itself. */
    method RecordDep(dep: Node)
      requires Valid() && dep in nodes
      modifies nodes
      ensures Valid() && Now() == EdgeAdded(old(Now()), resolvingStack, dep)
      ensures |resolvingStack| == 0 || Top() == dep ==> Now() == old(Now())
      ensures |resolvingStack| > 0 && Top() != dep ==>
        Top().deps == old(Top().deps) + {dep} && dep.rdeps == old(dep.rdeps) + {Top()}
    {
      hide WellFormed;
      WellFormedStack(Now(), resolvingStack);
      EdgeKeepsForm(Now(), resolvingStack, dep);
      if |resolvingStack| == 0 { return; }
      var requester := Top();
      if requester == dep { return; }
      requester.deps := requester.deps + {dep};
      dep.rdeps := dep.rdeps + {requester};
      assert Now() == EdgeAdded(old(Now()), resolvingStack, dep);
    }

    /** LookupChild: record the edge, then resolve on demand. A child that fails, or has
        no value, reads as null. */
    method LookupChild(name: Name) returns (sight: Sight)
      requires Valid()
      modifies this, nodes
      ensures Valid() && resolvingStack == old(resolvingStack)
      ensures StackInside(old(Now()), resolvingStack)
      ensures (sight, Here()) == ChildF(kids, old(Here()), resolvingStack, name, true)
      ensures ChildShown(kids, old(Here()), Here(), resolvingStack, name, true, sight)
      decreases Waiting(Now()), 4
    {
      hide WellFormed, ResolveF, ChildShown;
      WellFormedStack(Now(), resolvingStack);
      ChildShows(kids, Here(), resolvingStack, name, true);
      if name !in kids { return Sight(Missing, None); }
      var child := kids[name];
      EdgeKeepsWaiting(Now(), resolvingStack, child);
      RecordDep(child);
      var err := Resolve(child);
      sight := Look(child, err);
    }

    /** The OnResolve callback: no edge, and a node being resolved reads as null. */
    method OnResolve(name: Name) returns (sight: Sight)
      requires Valid()
      modifies this, nodes
      ensures Valid() && resolvingStack == old(resolvingStack)
      ensures StackInside(old(Now()), resolvingStack)
      ensures (sight, Here()) == ChildF(kids, old(Here()), resolvingStack, name, false)
      ensures ChildShown(kids, old(Here()), Here(), resolvingStack, name, false, sight)
      decreases Waiting(Now()), 4
    {
      hide WellFormed, ResolveF, ChildShown;
      WellFormedStack(Now(), resolvingStack);
      ChildShows(kids, Here(), resolvingStack, name, false);
      if name !in kids { return Sight(Missing, None); }
      var child := kids[name];
      if child.state == Resolving { return Sight(Null, None); }
      var err := Resolve(child);
      sight := Look(child, err);
    }

    /** The tests behind the resolution in LookupChild and OnResolve, and nodeToExprValue. */
    method Look(child: Node, err: Option<EvalError>) returns (sight: Sight)
      requires err == ErrorOf(child.Contents()) && (child.state == Error ==> child.err.Some?)
      ensures sight == Shown(child.Contents())
      ensures sight.look == if child.state == Resolved && child.value != NoValue then Found(child.value) else Null
      ensures sight.obj == if child.state == Resolved && child.value.StructValue? then child.obj else None
    {
      if err.Some? { return Sight(Null, None); }
      if child.state != Resolved { return Sight(Null, None); }
      if child.value == NoValue { return Sight(Null, None); }
      return Sight(Found(child.value), if child.value.StructValue? then child.obj else None);
    }

    /** The member access of evalNode, on a struct value that outlives the evaluation (`o`) or
        not: what it remembers is not looked up again. */
    method ReadMember(o: Option<Obj>, name: Name, run: nat, i: nat) returns (sight: Sight)
      requires Valid()
      modifies this, nodes
      ensures Valid() && resolvingStack == old(resolvingStack)
      ensures StackInside(old(Now()), resolvingStack)
      ensures (sight, Here()) == MemberF(kids, old(Here()), resolvingStack, o, name, run, i)
      ensures MemberShown(kids, old(Here()), Here(), resolvingStack, o, name, sight)
      decreases Waiting(Now()), 5
    {
      hide WellFormed, ChildF, ChildShown, MemberShown;
      WellFormedStack(Now(), resolvingStack);
      MemberShows(kids, Here(), resolvingStack, o, name, run, i);
      var held := Remembered(memory, o, name);
      if held.Some? { return Sight(Found(held.value.value), held.value.obj); }
      sight := LookupChild(name);
      if o.Some? && sight.look.Found? {
        sight := Lasting(sight, run, i);
        memory := Remember(memory, o.value, name, Held(sight.look.v, sight.obj));
      }
    }

    /** The assignments with which a resolution begins, succeeds and fails. */
    method Begin(n: Node)
      requires n in nodes
      modifies n
      ensures Now() == Begun(old(Now()), n)
    {
      n.state := Resolving;
    }

    method Succeed(n: Node, v: Value, obj: Option<Obj>)
      requires n in nodes
      modifies n
      ensures Now() == StoredObj(old(Now()), n, v, obj)
    {
      n.value := v;
      n.obj := obj;
      n.state := Resolved;
    }

    /** ... with what lasts of its struct values. */
    method KeepResult(n: Node, v: Value, obj: Option<Obj>, mem: Memory)
      requires n in nodes
      modifies n, this`memory
      ensures Here() == Store(StoredObj(old(Now()), n, v, obj), mem)
    {
      hide StoredObj;
      Succeed(n, v, obj);
      ghost var g := Now();
      memory := mem;
      assert Now() == g;
    }

    method Failure(n: Node, e: EvalError)
      requires n in nodes
      modifies n
      ensures Now() == Stored(old(Now()), n, Bad(e))
    {
      n.err := Some(e);
      n.state := Error;
    }

    /** Node.Resolve: a settled node answers from its cache. */
    method Resolve(n: Node) returns (err: Option<EvalError>)
      requires Valid() && n in nodes
      modifies this, nodes
      ensures Valid() && resolvingStack == old(resolvingStack)
      ensures StackInside(old(Now()), resolvingStack) && Here() == ResolveF(kids, old(Here()), resolvingStack, n)
      ensures Progress(old(Now()), Now()) && Settled(Now()[n]) && err == ErrorOf(Now()[n])
      ensures old(n.state) == Resolved || old(n.state) == Error ==> Here() == old(Here())
      ensures old(n.state) == Resolving ==> err == Some(Cycle) && n.state == Error && n.err == Some(Cycle)
      decreases Waiting(Now()), 3
    {
      hide WellFormed, Progress, ResolveF;
      WellFormedStack(Now(), resolvingStack);
      ResolveForm(kids, Here(), resolvingStack, n);
      ResolveCases(kids, Here(), resolvingStack, n);
      if n.state == Resolved { return None; }
      if n.state == Error { return n.err; }
      err := ResolveNode(n);
    }

    /** Tree.resolve: detects a cycle, and keeps the stack of nodes being resolved. */
    method ResolveNode(n: Node) returns (err: Option<EvalError>)
      requires Valid() && n in nodes
      modifies this, nodes
      ensures Valid() && resolvingStack == old(resolvingStack)
      ensures StackInside(old(Now()), resolvingStack) && Here() == ResolveF(kids, old(Here()), resolvingStack, n)
      ensures err == ErrorOf(Now()[n])
      decreases Waiting(Now()), 2
    {
      hide WellFormed, Progress, ResolveF, Settled, Stored;
      WellFormedStack(Now(), resolvingStack);
      ResolveForm(kids, Here(), resolvingStack, n);
      ResolveCases(kids, Here(), resolvingStack, n);
      if n.state == Resolved { return None; }
      if n.state == Error { return n.err; }
      if n.state == Resolving {
        Failure(n, Cycle);
        return Some(Cycle);
      }
      err := Proceed(n);
    }

    /** The part of Tree.resolve behind its checks. */
    method Proceed(n: Node) returns (err: Option<EvalError>)
      requires Valid() && n in nodes && n.state == Unresolved
      modifies this, nodes
      ensures Valid() && resolvingStack == old(resolvingStack)
      ensures StackInside(old(Now()), resolvingStack) && Here() == ResolveF(kids, old(Here()), resolvingStack, n)
      ensures err == ErrorOf(Now()[n])
      decreases Waiting(Now()), 1, 1
    {
      hide WellFormed, Progress, ResolveF, Settled, Stored, Finishes, ErrorOf;
      ghost var s0, stack0 := Here(), resolvingStack;
      WellFormedStack(s0.g, stack0);
      ResolveForm(kids, s0, stack0, n);
      ResolveCases(kids, s0, stack0, n);
      Push(n);
      if n.def.Leaf? { err := ResolveLeaf(n); } else { err := ResolveInstance(n, stack0); }
      Conclude(n, err, ResolveF(kids, s0, stack0, n));
      Pop();
      assert resolvingStack == stack0;
    }

    /** pushResolving */
    method Push(n: Node)
      modifies this`resolvingStack
      ensures resolvingStack == old(resolvingStack) + [n] && Here() == old(Here())
    {
      resolvingStack := resolvingStack + [n];
      assert Now() == old(Now());
    }

    /** popResolving */
    method Pop()
      requires |resolvingStack| > 0
      modifies this`resolvingStack
      ensures resolvingStack == old(resolvingStack)[..|old(resolvingStack)| - 1] && Here() == old(Here())
    {
      resolvingStack := resolvingStack[..|resolvingStack| - 1];
      assert Now() == old(Now());
    }

    /** The error assignments at the end of Tree.resolve. */
    method Conclude(n: Node, err: Option<EvalError>, ghost goal: Store)
      requires n in nodes && Finishes(Here(), n, err, goal)
      modifies n
      ensures Here() == goal && n in goal.g && err == ErrorOf(goal.g[n])
    {
      if err.Some? { Failure(n, err.value); }
    }

    /** Reading a field of the stream, which for a leaf needs no other node. */
    method ResolveLeaf(n: Node) returns (err: Option<EvalError>)
      requires n in nodes && n.def.Leaf?
      modifies this, nodes
      ensures resolvingStack == old(resolvingStack)
      ensures Finishes(Here(), n, err, old(Here()).(g := Stored(old(Now()), n, n.def.source)))
    {
      Begin(n);
      match n.def.source {
        case Good(v) =>
          Succeed(n, v, None);
          err := None;
        case Bad(e) =>
          err := Some(e);
      }
    }

    /** The value-instance part of resolveInstance: the expression runs, its member reads
        going through ReadMember and its bare identifiers through OnResolve. */
    method ResolveInstance(n: Node, ghost stack0: seq<Node>) returns (err: Option<EvalError>)
      requires n in nodes && n.def.Computed? && n.state == Unresolved && kids.Values <= nodes
      requires WellFormed(Now(), stack0) && resolvingStack == stack0 + [n]
      modifies this, nodes
      ensures resolvingStack == old(resolvingStack)
      ensures StackInside(old(Now()), stack0) && Finishes(Here(), n, err, ResolveF(kids, old(Here()), stack0, n))
      decreases Waiting(Now()), 1, 0
    {
      hide WellFormed, RunF, ResolveF, Finishes, Begun, Waiting;
      ghost var s0 := Here();
      WellFormedStack(s0.g, stack0);
      var run := memory.clock;
      ResolveStarts(kids, s0, stack0, n);
      BeginForm(s0.g, stack0, n);
      memory := memory.(clock := run + 1);
      assert Now() == s0.g;
      Begin(n);
      assert Here() == Started(s0, n);
      err := Evaluate(n, run);
    }

    /** engine.Evaluate, and the assignments of its result. */
    method Evaluate(n: Node, run: nat) returns (err: Option<EvalError>)
      requires Valid() && n in nodes && n.def.Computed?
      modifies this, nodes
      ensures resolvingStack == old(resolvingStack) && StackInside(old(Now()), resolvingStack)
      ensures Finishes(Here(), n, err, RunF(kids, old(Here()), resolvingStack, n, run, [], []))
      decreases Waiting(Now()), 7
    {
      hide WellFormed, LookF, RunF, Published, Origin, Stored, StoredObj, ErrorOf;
      ghost var stack := resolvingStack;
      WellFormedStack(Now(), stack);
      ghost var goal := RunF(kids, Here(), stack, n, run, [], []);
      var history: seq<Lookup> := [];
      var seen: seq<Option<Obj>> := [];
      while true
        invariant Valid() && resolvingStack == stack && |history| == |seen| <= n.def.bound
        invariant StackInside(Now(), stack) && RunF(kids, Here(), stack, n, run, history, seen) == goal
        invariant Waiting(Now()) <= old(Waiting(Now()))
        decreases n.def.bound - |history|
      {
        ghost var s := Here();
        RunStep(kids, s, stack, n, run, history, seen);
        match n.def.step(history) {
          case Return(v, from) =>
            KeepResult(n, v, Origin(run, seen, from), Published(memory, n, run, history, seen, from));
            StoredErrors(s.g, n, v, Origin(run, seen, from), Cycle);
            return None;
          case Fail(msg) =>
            StoredErrors(s.g, n, NoValue, None, Failed(msg));
            return Some(Failed(msg));
          case _ =>
            if |history| == n.def.bound {
              StoredErrors(s.g, n, NoValue, None, Failed(LOOKUP_LIMIT));
              return Some(Failed(LOOKUP_LIMIT));
            }
            var sight := LookUp(n.def.step(history), run, history, seen);
            WellFormedStack(Now(), stack);
            history, seen := history + [sight.look], seen + [sight.obj];
        }
      }
    }

    /** A bare identifier or a member access. */
    method LookUp(a: Action, run: nat, h: seq<Lookup>, seen: seq<Option<Obj>>) returns (sight: Sight)
      requires Valid() && (a.Peek? || a.Member?)
      modifies this, nodes
      ensures Valid() && resolvingStack == old(resolvingStack)
      ensures StackInside(old(Now()), resolvingStack)
      ensures (sight, Here()) == LookF(kids, old(Here()), resolvingStack, a, run, h, seen)
      ensures LookupShown(kids, old(Here()), Here(), resolvingStack, a, h, seen, sight)
      decreases Waiting(Now()), 6
    {
      hide WellFormed, ChildF, MemberF, ChildShown, MemberShown;
      WellFormedStack(Now(), resolvingStack);
      if a.Peek? {
        sight := OnResolve(a.name);
      } else if !ViaOk(h, a.via) {
        sight := Sight(Missing, None);
      } else {
        sight := ReadMember(SharedAt(seen, a.via), a.name, run, |h|);
      }
    }
  }

  const LOOKUP_LIMIT := "lookup limit exceeded"

  const FRESH := Cell(Unresolved, NoValue, None, {}, {}, None)

  // ---- Cells ----------------------------------------------------------------

  ghost function Begun(g: Graph, n: Node): (g': Graph)
    requires n in g
    ensures g'.Keys == g.Keys
  {
    g[n := g[n].(state := Resolving)]
  }

  /** The result of a success, with the struct value that is kept. */
  ghost function StoredObj(g: Graph, n: Node, v: Value, obj: Option<Obj>): (g': Graph)
    requires n in g
    ensures g'.Keys == g.Keys
  {
    g[n := g[n].(state := Resolved, value := v, obj := obj)]
  }

  ghost function Stored(g: Graph, n: Node, o: Outcome): (g': Graph)
    requires n in g
    ensures g'.Keys == g.Keys
  {
    match o
    case Good(v) => StoredObj(g, n, v, None)
    case Bad(e) => g[n := g[n].(state := Error, err := Some(e))]
  }

  /** `s` becomes `goal` once the error, if any, is stored. */
  ghost predicate Finishes(s: Store, n: Node, err: Option<EvalError>, goal: Store)
    requires n in s.g
  {
    n in goal.g && err == ErrorOf(goal.g[n]) &&
    goal == (match err case None => s case Some(e) => s.(g := Stored(s.g, n, Bad(e))))
  }

  lemma StoredErrors(g: Graph, n: Node, v: Value, obj: Option<Obj>, e: EvalError)
    requires n in g
    ensures ErrorOf(StoredObj(g, n, v, obj)[n]) == None && ErrorOf(Stored(g, n, Bad(e))[n]) == Some(e)
  {}

  /** What a finished resolution shows of a node. */
  function AsLook(c: Cell): Lookup
  {
    if c.state == Resolved && c.value != NoValue then Found(c.value) else Null
  }

  function Shown(c: Cell): Sight
  {
    Sight(AsLook(c), if c.state == Resolved && c.value.StructValue? then c.obj else None)
  }

  function ErrorOf(c: Cell): Option<EvalError>
  {
    if c.state == Error then c.err else None
  }

  // ---- Struct values -------------------------------------------------------

  /** A struct value made in this evaluation (of a scope, or of a lookup that showed no
      lasting one) is seen by this evaluation alone while it runs. */
  function SharedAt(seen: seq<Option<Obj>>, via: Ref): Option<Obj>
  {
    match via
    case Own(_) => None
    case Root => None
    case Seen(i, up) => if i < |seen| && seen[i].Some? then ParentOf(seen[i].value, up) else None
  }

  /** The context of an evaluation links the struct values of its scopes; no other has a parent. */
  function ParentOf(o: Obj, up: nat): Option<Obj>
  {
    if up == 0 then Some(o) else if o.ref.Own? then Some(Obj(o.run, Own(o.ref.up + up))) else None
  }

  predicate ShowsStruct(look: Lookup)
  {
    look.Found? && look.v.StructValue?
  }

  /** Members can be read through scopes and through lookups that showed a struct value. */
  predicate ViaOk(h: seq<Lookup>, via: Ref)
  {
    via.Seen? ==> via.i < |h| && ShowsStruct(h[via.i]) && via.up <= h[via.i].v.parents
  }

  function Remembered(mem: Memory, o: Option<Obj>, name: Name): Option<Held>
  {
    if o.Some? && o.value in mem.memos && name in mem.memos[o.value] then Some(mem.memos[o.value][name]) else None
  }

  function Remember(mem: Memory, o: Obj, name: Name, held: Held): Memory
  {
    var m := if o in mem.memos then mem.memos[o] else map[];
    mem.(memos := mem.memos[o := m[name := held]])
  }

  /** A struct value that a lasting one remembers lasts too. */
  function Lasting(sight: Sight, run: nat, i: nat): (lasting: Sight)
    ensures lasting.look == sight.look
  {
    if ShowsStruct(sight.look) && sight.obj.None? then sight.(obj := Some(Obj(run, Seen(i, 0)))) else sight
  }

  /** The struct value that a result is. */
  function Origin(run: nat, seen: seq<Option<Obj>>, from: Option<Ref>): Option<Obj>
  {
    if from.None? then None
    else if SharedAt(seen, from.value).Some? then SharedAt(seen, from.value)
    else Some(Obj(run, from.value))
  }

  /** The struct value that lookup `j` will be if it lasts. */
  function PlaceOf(run: nat, h: seq<Lookup>, seen: seq<Option<Obj>>, j: nat): Option<Obj>
    requires j < |h| == |seen|
  {
    if seen[j].Some? then seen[j] else if ShowsStruct(h[j]) then Some(Obj(run, Seen(j, 0))) else None
  }

  /** Lookup `j` found a member through `r`. */
  predicate FoundThrough(n: Node, h: seq<Lookup>, r: Ref, j: nat)
    requires n.def.Computed? && j < |h|
  {
    n.def.step(h[..j]).Member? && n.def.step(h[..j]).via == r && ViaOk(h[..j], r) && h[j].Found?
  }

  /** What `r` remembers of the first `k` lookups. */
  function Entries(n: Node, run: nat, h: seq<Lookup>, seen: seq<Option<Obj>>, r: Ref, k: nat): map<Name, Held>
    requires n.def.Computed? && k <= |h| == |seen|
  {
    if k == 0 then map[] else
      var m := Entries(n, run, h, seen, r, k - 1);
      if FoundThrough(n, h, r, k - 1) then
        m[n.def.step(h[..k - 1]).name := Held(h[k - 1].v, PlaceOf(run, h, seen, k - 1))]
      else m
  }

  /** `r` is the result, a parent of it, or a struct value of this evaluation that one of them
      remembers, itself or through others. */
  predicate KeptRef(n: Node, h: seq<Lookup>, seen: seq<Option<Obj>>, from: Ref, r: Ref)
    requires n.def.Computed? && |h| == |seen|
    decreases if r.Seen? then r.i + 1 else 0
  {
    r == from ||
    (r.Own? && from.Own? && from.up <= r.up) ||
    (r.Seen? && r.up == 0 && r.i < |h| && seen[r.i].None? && n.def.step(h[..r.i]).Member? &&
     var via := n.def.step(h[..r.i]).via;
     (via.Seen? ==> via.i < r.i) && KeptRef(n, h, seen, from, via))
  }

  function Refs(n: Node, h: seq<Lookup>, from: Ref): set<Ref>
    requires n.def.Computed?
  {
    {from} + (set j | 0 <= j < |h| :: Seen(j, 0)) + (set j | 0 <= j < |h| && n.def.step(h[..j]).Member? :: n.def.step(h[..j]).via)
  }

  /** The struct values of this evaluation that last because the result does. */
  function NewMemos(n: Node, run: nat, h: seq<Lookup>, seen: seq<Option<Obj>>, from: Ref): map<Obj, map<Name, Held>>
    requires n.def.Computed? && |h| == |seen|
  {
    map r | r in Refs(n, h, from) && KeptRef(n, h, seen, from, r) :: Obj(run, r) := Entries(n, run, h, seen, r, |h|)
  }

  function Published(mem: Memory, n: Node, run: nat, h: seq<Lookup>, seen: seq<Option<Obj>>, from: Option<Ref>): (mem': Memory)
    requires n.def.Computed? && |h| == |seen|
    ensures mem'.clock == mem.clock
  {
    if from.None? || SharedAt(seen, from.value).Some? then mem
    else mem.(memos := mem.memos + NewMemos(n, run, h, seen, from.value))
  }

  /** Lookup `j` is the last one that found this member through `r`. */
  ghost predicate LastFound(n: Node, h: seq<Lookup>, r: Ref, name: Name, j: nat)
    requires n.def.Computed?
  {
    && j < |h| && n.def.step(h[..j]) == Member(r, name) && h[j].Found?
    && forall k :: j < k < |h| ==> n.def.step(h[..k]) != Member(r, name)
  }

  lemma {:induction false} EntryOfLast(n: Node, run: nat, h: seq<Lookup>, seen: seq<Option<Obj>>, r: Ref, name: Name, j: nat, k: nat)
    requires n.def.Computed? && |h| == |seen| && j < k <= |h| && LastFound(n, h, r, name, j) && ViaOk(h[..j], r)
    ensures name in Entries(n, run, h, seen, r, k)
    ensures Entries(n, run, h, seen, r, k)[name] == Held(h[j].v, PlaceOf(run, h, seen, j))
  {
    hide ViaOk, PlaceOf;
    if k > j + 1 { EntryOfLast(n, run, h, seen, r, name, j, k - 1); }
  }

  /** What the struct values that last remember of the evaluation. */
  lemma KeptRemembers(mem: Memory, n: Node, run: nat, h: seq<Lookup>, seen: seq<Option<Obj>>, from: Ref, r: Ref, name: Name, j: nat)
    requires n.def.Computed? && |h| == |seen| && SharedAt(seen, from).None? && KeptRef(n, h, seen, from, r)
    requires LastFound(n, h, r, name, j) && ViaOk(h[..j], r)
    ensures Remembered(Published(mem, n, run, h, seen, Some(from)), Some(Obj(run, r)), name) ==
            Some(Held(h[j].v, PlaceOf(run, h, seen, j)))
  {
    hide ViaOk, PlaceOf, Entries, KeptRef;
    EntryOfLast(n, run, h, seen, r, name, j, |h|);
    assert n.def.step(h[..j]).Member? && n.def.step(h[..j]).via == r;
    assert r in Refs(n, h, from);
  }

  /** A struct value that the evaluation made and returns remembers the members found through
      it. ... */
  lemma ResultRemembers(mem: Memory, n: Node, run: nat, h: seq<Lookup>, seen: seq<Option<Obj>>, from: Ref, name: Name, j: nat)
    requires n.def.Computed? && |h| == |seen| && LastFound(n, h, from, name, j)
    requires from.Seen? ==> from.up == 0 && from.i < j && ShowsStruct(h[from.i]) && seen[from.i].None?
    ensures var held := Remembered(Published(mem, n, run, h, seen, Some(from)), Origin(run, seen, Some(from)), name);
            held.Some? && held.value.value == h[j].v
  {
    hide Published;
    if from.Seen? { assert h[..j][from.i] == h[from.i]; }
    KeptRemembers(mem, n, run, h, seen, from, from, name, j);
  }

  /** ... So do its parents, for whoever reads through a parent of the result later. ... */
  lemma ParentsRemember(mem: Memory, n: Node, run: nat, h: seq<Lookup>, seen: seq<Option<Obj>>, level: nat, up: nat, name: Name, j: nat)
    requires n.def.Computed? && |h| == |seen| && LastFound(n, h, Own(level + up), name, j)
    ensures var later := [Origin(run, seen, Some(Own(level)))];
            var held := Remembered(Published(mem, n, run, h, seen, Some(Own(level))), SharedAt(later, Seen(0, up)), name);
            held.Some? && held.value.value == h[j].v
  {
    hide Published;
    KeptRemembers(mem, n, run, h, seen, Own(level), Own(level + up), name, j);
  }

  /** ... And so does a struct value found through it. */
  lemma MembersRemember(mem: Memory, n: Node, run: nat, h: seq<Lookup>, seen: seq<Option<Obj>>, from: Ref, inner: Name, i: nat, name: Name, j: nat)
    requires n.def.Computed? && |h| == |seen| && (from.Root? || from.Own?)
    requires LastFound(n, h, from, inner, i) && ShowsStruct(h[i]) && seen[i].None?
    requires i < j && LastFound(n, h, Seen(i, 0), name, j)
    ensures var mem' := Published(mem, n, run, h, seen, Some(from));
            var first := Remembered(mem', Origin(run, seen, Some(from)), inner);
            first.Some? && var held := Remembered(mem', first.value.obj, name); held.Some? && held.value.value == h[j].v
  {
    hide Published;
    assert h[..j][i] == h[i];
    KeptRemembers(mem, n, run, h, seen, from, from, inner, i);
    KeptRemembers(mem, n, run, h, seen, from, Seen(i, 0), name, j);
  }

  // ---- Resolution as functions on stores -----------------------------------

  /** Resolving `n` while the nodes on the stack are being resolved. */
  ghost function ResolveF(kids: Kids, s: Store, stack: seq<Node>, n: Node): (s': Store)
    requires kids.Values <= s.g.Keys && StackInside(s.g, stack) && n in s.g
    ensures s'.g.Keys == s.g.Keys && Waiting(s'.g) <= Waiting(s.g)
    decreases Waiting(s.g), 0, 0
  {
    match s.g[n].state
    case Resolved => s
    case Error => s
    case Resolving => s.(g := Stored(s.g, n, Bad(Cycle)))
    case Unresolved =>
      match n.def
      case Leaf(source) => s.(g := Stored(s.g, n, source))
      case Computed(_, _) =>
        assert n in Waiting(s.g) && n !in Waiting(Begun(s.g, n));
        RunF(kids, Started(s, n), stack + [n], n, s.mem.clock, [], [])
  }

  /** A new evaluation. */
  ghost function Started(s: Store, n: Node): Store
    requires n in s.g
  {
    Store(Begun(s.g, n), s.mem.(clock := s.mem.clock + 1))
  }

  /** The rest of evaluation number `run`, of `n`, behind the lookups `h`, some of which
      showed lasting struct values. */
  ghost function RunF(kids: Kids, s: Store, stack: seq<Node>, n: Node, run: nat, h: seq<Lookup>, seen: seq<Option<Obj>>): (s': Store)
    requires kids.Values <= s.g.Keys && StackInside(s.g, stack) && n in s.g && n.def.Computed? && |h| == |seen| <= n.def.bound
    ensures s'.g.Keys == s.g.Keys && Waiting(s'.g) <= Waiting(s.g)
    decreases Waiting(s.g), 4, n.def.bound - |h|
  {
    match Verdict(n, h)
    case Some(o) => Finished(s, n, run, h, seen, o)
    case None =>
      var (sight, s2) := LookF(kids, s, stack, n.def.step(h), run, h, seen);
      RunF(kids, s2, stack, n, run, h + [sight.look], seen + [sight.obj])
  }

  ghost function Finished(s: Store, n: Node, run: nat, h: seq<Lookup>, seen: seq<Option<Obj>>, o: Outcome): (s': Store)
    requires n in s.g && n.def.Computed? && |h| == |seen|
    ensures s'.g.Keys == s.g.Keys && Waiting(s'.g) <= Waiting(s.g)
  {
    var a := n.def.step(h);
    if a.Return? then
      Store(StoredObj(s.g, n, a.v, Origin(run, seen, a.from)), Published(s.mem, n, run, h, seen, a.from))
    else s.(g := Stored(s.g, n, o))
  }

  /** One lookup. */
  ghost function LookF(kids: Kids, s: Store, stack: seq<Node>, a: Action, run: nat, h: seq<Lookup>, seen: seq<Option<Obj>>): (res: (Sight, Store))
    requires kids.Values <= s.g.Keys && StackInside(s.g, stack) && (a.Peek? || a.Member?)
    ensures res.1.g.Keys == s.g.Keys && Waiting(res.1.g) <= Waiting(s.g)
    decreases Waiting(s.g), 3, 0
  {
    if a.Peek? then ChildF(kids, s, stack, a.name, false)
    else if !ViaOk(h, a.via) then (Sight(Missing, None), s)
    else MemberF(kids, s, stack, SharedAt(seen, a.via), a.name, run, |h|)
  }

  ghost function MemberF(kids: Kids, s: Store, stack: seq<Node>, o: Option<Obj>, name: Name, run: nat, i: nat): (res: (Sight, Store))
    requires kids.Values <= s.g.Keys && StackInside(s.g, stack)
    ensures res.1.g.Keys == s.g.Keys && Waiting(res.1.g) <= Waiting(s.g)
    decreases Waiting(s.g), 2, 0
  {
    var held := Remembered(s.mem, o, name);
    if held.Some? then (Sight(Found(held.value.value), held.value.obj), s)
    else
      var (sight, s2) := ChildF(kids, s, stack, name, true);
      if o.Some? && sight.look.Found? then
        var lasting := Lasting(sight, run, i);
        (lasting, s2.(mem := Remember(s2.mem, o.value, name, Held(lasting.look.v, lasting.obj))))
      else (sight, s2)
  }

  /** A child resolved on demand, with an edge or without. */
  ghost function ChildF(kids: Kids, s: Store, stack: seq<Node>, name: Name, recorded: bool): (res: (Sight, Store))
    requires kids.Values <= s.g.Keys && StackInside(s.g, stack)
    ensures res.1.g.Keys == s.g.Keys && Waiting(res.1.g) <= Waiting(s.g)
    decreases Waiting(s.g), 1, 0
  {
    if name !in kids then (Sight(Missing, None), s)
    else
      var c := kids[name];
      if !recorded && s.g[c].state == Resolving then (Sight(Null, None), s)
      else
        var s1 := if recorded then s.(g := EdgeAdded(s.g, stack, c)) else s;
        EdgeKeepsWaiting(s.g, stack, c);
        var s2 := ResolveF(kids, s1, stack, c);
        (Shown(s2.g[c]), s2)
  }

  lemma ResolveCases(kids: Kids, s: Store, stack: seq<Node>, n: Node)
    requires kids.Values <= s.g.Keys && StackInside(s.g, stack) && n in s.g
    ensures s.g[n].state in {Resolved, Error} ==> ResolveF(kids, s, stack, n) == s
    ensures s.g[n].state == Resolving ==>
      ResolveF(kids, s, stack, n) == s.(g := Stored(s.g, n, Bad(Cycle))) && ErrorOf(Stored(s.g, n, Bad(Cycle))[n]) == Some(Cycle)
    ensures s.g[n].state == Unresolved && n.def.Leaf? ==> ResolveF(kids, s, stack, n) == s.(g := Stored(s.g, n, n.def.source))
  {
    hide RunF;
  }

  lemma ResolveStarts(kids: Kids, s: Store, stack: seq<Node>, n: Node)
    requires kids.Values <= s.g.Keys && StackInside(s.g, stack) && n in s.g && n.def.Computed? && s.g[n].state == Unresolved
    ensures StackInside(Started(s, n).g, stack + [n])
    ensures ResolveF(kids, s, stack, n) == RunF(kids, Started(s, n), stack + [n], n, s.mem.clock, [], [])
  {
    hide RunF;
  }

  lemma RunStep(kids: Kids, s: Store, stack: seq<Node>, n: Node, run: nat, h: seq<Lookup>, seen: seq<Option<Obj>>)
    requires kids.Values <= s.g.Keys && StackInside(s.g, stack) && n in s.g && n.def.Computed? && |h| == |seen| <= n.def.bound
    ensures RunF(kids, s, stack, n, run, h, seen) ==
      var a := n.def.step(h);
      if a.Return? then
        Store(StoredObj(s.g, n, a.v, Origin(run, seen, a.from)), Published(s.mem, n, run, h, seen, a.from))
      else if a.Fail? then s.(g := Stored(s.g, n, Bad(Failed(a.msg))))
      else if |h| == n.def.bound then s.(g := Stored(s.g, n, Bad(Failed(LOOKUP_LIMIT))))
      else
        var look := LookF(kids, s, stack, a, run, h, seen);
        RunF(kids, look.1, stack, n, run, h + [look.0.look], seen + [look.0.obj])
  {
    hide LookF;
  }

  lemma NoChild(kids: Kids, s: Store, stack: seq<Node>, name: Name, recorded: bool)
    requires kids.Values <= s.g.Keys && StackInside(s.g, stack) && name !in kids
    ensures ChildF(kids, s, stack, name, recorded) == (Sight(Missing, None), s)
  {}

  lemma ChildStep(kids: Kids, s: Store, stack: seq<Node>, name: Name, recorded: bool)
    requires kids.Values <= s.g.Keys && StackInside(s.g, stack) && name in kids
    requires recorded || s.g[kids[name]].state != Resolving
    ensures var c := kids[name];
            var s1 := if recorded then s.(g := EdgeAdded(s.g, stack, c)) else s;
            var s2 := ResolveF(kids, s1, stack, c);
            ChildF(kids, s, stack, name, recorded) == (Shown(s2.g[c]), s2)
  {
    hide ResolveF;
  }

  lemma LookStep(kids: Kids, s: Store, stack: seq<Node>, a: Action, run: nat, h: seq<Lookup>, seen: seq<Option<Obj>>)
    requires kids.Values <= s.g.Keys && StackInside(s.g, stack) && (a.Peek? || a.Member?)
    ensures a.Peek? ==> LookF(kids, s, stack, a, run, h, seen) == ChildF(kids, s, stack, a.name, false)
    ensures a.Member? && ViaOk(h, a.via) ==>
      LookF(kids, s, stack, a, run, h, seen) == MemberF(kids, s, stack, SharedAt(seen, a.via), a.name, run, |h|)
  {
    hide ChildF, MemberF;
  }

  lemma MemberStep(kids: Kids, s: Store, stack: seq<Node>, o: Option<Obj>, name: Name, run: nat, i: nat)
    requires kids.Values <= s.g.Keys && StackInside(s.g, stack) && Remembered(s.mem, o, name).None?
    ensures var child := ChildF(kids, s, stack, name, true);
            MemberF(kids, s, stack, o, name, run, i) ==
            if o.Some? && child.0.look.Found? then
              (Lasting(child.0, run, i),
               child.1.(mem := Remember(child.1.mem, o.value, name, Held(child.0.look.v, Lasting(child.0, run, i).obj))))
            else child
  {
    hide ChildF;
  }

  /** The outcome of the expression of `n` after the lookups `h`, unless it goes on. */
  ghost function Verdict(n: Node, h: seq<Lookup>): Option<Outcome>
    requires n.def.Computed?
  {
    match n.def.step(h)
    case Return(v, _) => Some(Good(v))
    case Fail(msg) => Some(Bad(Failed(msg)))
    case _ => if |h| >= n.def.bound then Some(Bad(Failed(LOOKUP_LIMIT))) else None
  }

  // ---- The shape of the graph --------------------------------------------

  /** Edges are symmetric, nodes on the stack are being resolved (or failed meanwhile),
      and an unresolved node has no forward edges. */
  ghost predicate WellFormed(g: Graph, stack: seq<Node>)
  {
    && Linked(g)
    && (forall i :: 0 <= i < |stack| ==> stack[i] in g && g[stack[i]].state in {Resolving, Error})
    && (forall n :: n in g && g[n].state == Unresolved ==> g[n].deps == {})
    && (forall n :: n in g && g[n].state == Error ==> g[n].err.Some?)
  }

  ghost predicate StackInside(g: Graph, stack: seq<Node>)
  {
    forall i :: 0 <= i < |stack| ==> stack[i] in g
  }

  lemma WellFormedStack(g: Graph, stack: seq<Node>)
    requires WellFormed(g, stack)
    ensures StackInside(g, stack) && forall n :: n in g && g[n].state == Error ==> g[n].err.Some?
  {}

  ghost function EdgeAdded(g: Graph, stack: seq<Node>, dep: Node): (g': Graph)
    requires dep in g && StackInside(g, stack)
    ensures g'.Keys == g.Keys
  {
    if |stack| == 0 || stack[|stack| - 1] == dep then g
    else
      var top := stack[|stack| - 1];
      g[top := g[top].(deps := g[top].deps + {dep})][dep := g[dep].(rdeps := g[dep].rdeps + {top})]
  }

  lemma EdgeKeepsForm(g: Graph, stack: seq<Node>, dep: Node)
    requires WellFormed(g, stack) && dep in g
    ensures WellFormed(EdgeAdded(g, stack, dep), stack)
  {
    EdgeKeepsLinks(g, stack, dep);
    hide Linked;
  }

  lemma EdgeKeepsLinks(g: Graph, stack: seq<Node>, dep: Node)
    requires Linked(g) && dep in g && StackInside(g, stack)
    ensures Linked(EdgeAdded(g, stack, dep))
  {
    if |stack| > 0 && stack[|stack| - 1] != dep {
      var top, h := stack[|stack| - 1], EdgeAdded(g, stack, dep);
      forall a, b | a in h && b in h ensures b in h[a].deps <==> a in h[b].rdeps {
        assert b in h[a].deps <==> b in g[a].deps || (a == top && b == dep);
        assert a in h[b].rdeps <==> a in g[b].rdeps || (a == top && b == dep);
      }
    }
  }

  /** The nodes whose resolution has not begun. */
  ghost function Waiting(g: Graph): set<Node>
  {
    set n | n in g && g[n].state == Unresolved
  }

  lemma EdgeKeepsWaiting(g: Graph, stack: seq<Node>, dep: Node)
    requires dep in g && StackInside(g, stack)
    ensures Waiting(EdgeAdded(g, stack, dep)) == Waiting(g)
  {}

  ghost predicate Settled(c: Cell)
  {
    c.state == Resolved || (c.state == Error && c.err.Some?)
  }

  ghost function OutcomeOf(c: Cell): Outcome
    requires Settled(c)
  {
    if c.state == Resolved then Good(c.value) else Bad(c.err.value)
  }

  function AsLookup(o: Outcome): Lookup
  {
    if o.Bad? || o.v == NoValue then Null else Found(o.v)
  }

  lemma SettledLook(c: Cell)
    requires Settled(c)
    ensures AsLook(c) == AsLookup(OutcomeOf(c))
  {}

  // ---- What a resolution may change --------------------------------------

  /** A node being resolved may be found on a cycle, an unresolved node may be settled;
      everything else, and in particular every settled node, stays, except for new readers. */
  ghost predicate Advanced(m: Node, c: Cell, d: Cell)
  {
    && c.rdeps <= d.rdeps
    && match c.state
       case Resolving => c.deps == d.deps && c.value == d.value && c.obj == d.obj &&
                         ((d.state == Resolving && d.err == c.err) || (d.state == Error && d.err == Some(Cycle)))
       case Unresolved => d.state != Resolving && (d.state == Unresolved ==> c.value == d.value && c.err == d.err && c.obj == d.obj) &&
                          (m.def.Leaf? && Settled(d) ==> OutcomeOf(d) == m.def.source)
       case _ => c.state == d.state && c.value == d.value && c.err == d.err && c.deps == d.deps && c.obj == d.obj
  }

  ghost predicate Progress(g: Graph, h: Graph)
  {
    g.Keys == h.Keys && forall m :: m in g ==> Advanced(m, g[m], h[m])
  }

  lemma RunningKeepsDeps(g: Graph, h: Graph, stack: seq<Node>)
    requires WellFormed(g, stack) && Progress(g, h) && |stack| > 0
    ensures var top := stack[|stack| - 1]; top in g && top in h && h[top].deps == g[top].deps
  {
    hide Linked;
    var top := stack[|stack| - 1];
    assert Advanced(top, g[top], h[top]);
  }

  /** The same while `n` itself is running, whose cell may change. */
  ghost predicate ProgressBut(g: Graph, h: Graph, n: Node)
    requires n in g
  {
    g.Keys == h.Keys && g[n].rdeps <= h[n].rdeps && forall m :: m in g && m != n ==> Advanced(m, g[m], h[m])
  }

  lemma AdvancedTwice(m: Node, a: Cell, b: Cell, c: Cell)
    requires Advanced(m, a, b) && Advanced(m, b, c)
    ensures Advanced(m, a, c)
  {}

  lemma ProgressTwice(a: Graph, b: Graph, c: Graph, n: Node)
    requires n in a && ProgressBut(a, b, n) && ProgressBut(b, c, n)
    ensures ProgressBut(a, c, n)
  {
    hide Advanced;
    forall m | m in a && m != n ensures Advanced(m, a[m], c[m]) { AdvancedTwice(m, a[m], b[m], c[m]); }
  }

  lemma ProgressRefl(g: Graph)
    ensures Progress(g, g)
  {}

  /** An edge of the running node is progress for all others. */
  lemma EdgeIsProgress(g: Graph, stack0: seq<Node>, n: Node, dep: Node)
    requires dep in g && n in g && StackInside(g, stack0)
    ensures StackInside(g, stack0 + [n]) && ProgressBut(g, EdgeAdded(g, stack0 + [n], dep), n)
  {}

  lemma BeginForm(g: Graph, stack0: seq<Node>, n: Node)
    requires WellFormed(g, stack0) && n in g && g[n].state == Unresolved
    ensures n !in stack0 && WellFormed(Begun(g, n), stack0 + [n]) && StackInside(Begun(g, n), stack0 + [n])
    ensures Waiting(Begun(g, n)) < Waiting(g)
  {
    assert n in Waiting(g) && n !in Waiting(Begun(g, n));
    assert SameEdges(g, Begun(g, n));
    hide Linked;
    SameLinks(g, Begun(g, n));
  }

  ghost predicate SameEdges(g: Graph, h: Graph)
    requires g.Keys == h.Keys
  {
    forall m :: m in g ==> h[m].deps == g[m].deps && h[m].rdeps == g[m].rdeps
  }

  /** `h` is `g` with `n` settled. */
  ghost predicate SettledOne(g: Graph, h: Graph, n: Node)
    requires n in g
  {
    g.Keys == h.Keys && Settled(h[n]) && h[n].deps == g[n].deps && h[n].rdeps == g[n].rdeps &&
    forall m :: m in g && m != n ==> h[m] == g[m]
  }

  lemma StoredForm(g: Graph, h: Graph, stack0: seq<Node>, n: Node)
    requires n in g && n !in stack0 && SettledOne(g, h, n)
    requires WellFormed(g, stack0 + [n]) || WellFormed(g, stack0)
    ensures WellFormed(h, stack0) && ProgressBut(g, h, n)
  {
    assert forall i :: 0 <= i < |stack0| ==> stack0[i] == (stack0 + [n])[i];
    assert SameEdges(g, h);
    hide Linked;
    SameLinks(g, h);
  }

  lemma FinishedSettles(s: Store, n: Node, run: nat, h: seq<Lookup>, seen: seq<Option<Obj>>, o: Outcome)
    requires n in s.g && n.def.Computed? && |h| == |seen| && Verdict(n, h) == Some(o)
    ensures var s' := Finished(s, n, run, h, seen, o);
            SettledOne(s.g, s'.g, n) && OutcomeOf(s'.g[n]) == o && s'.mem.clock == s.mem.clock
  {
    hide Published;
  }

  /** Resolving keeps the form, settles the node and otherwise only makes progress; it does
      so on any graph, cyclic or not. */
  lemma {:induction false} ResolveForm(kids: Kids, s: Store, stack: seq<Node>, n: Node)
    requires kids.Values <= s.g.Keys && WellFormed(s.g, stack) && StackInside(s.g, stack) && n in s.g
    ensures var s' := ResolveF(kids, s, stack, n);
            WellFormed(s'.g, stack) && Settled(s'.g[n]) && Progress(s.g, s'.g) && s.mem.clock <= s'.mem.clock
    decreases Waiting(s.g), 0, 0
  {
    hide RunF, Linked;
    match s.g[n].state {
      case Resolving => CycleForm(s.g, stack, n);
      case Unresolved =>
        if n.def.Leaf? {
          StoredForm(s.g, Stored(s.g, n, n.def.source), stack, n);
          assert Advanced(n, s.g[n], Stored(s.g, n, n.def.source)[n]);
        } else {
          var s1 := Started(s, n);
          BeginForm(s.g, stack, n);
          RunForm(kids, s1, stack, n, s.mem.clock, [], []);
          AdvancedFromBegun(s.g, n, ResolveF(kids, s, stack, n).g);
        }
      case _ => ProgressRefl(s.g);
    }
  }

  lemma AdvancedFromBegun(g: Graph, n: Node, h: Graph)
    requires n in g && g[n].state == Unresolved && n.def.Computed? && ProgressBut(Begun(g, n), h, n) && Settled(h[n])
    ensures Progress(g, h)
  {}

  /** Meeting a node that is being resolved stores a cycle error. */
  lemma CycleForm(g: Graph, stack: seq<Node>, n: Node)
    requires WellFormed(g, stack) && n in g && g[n].state == Resolving
    ensures var h := Stored(g, n, Bad(Cycle)); WellFormed(h, stack) && Progress(g, h) && Settled(h[n])
  {
    assert SameEdges(g, Stored(g, n, Bad(Cycle)));
    SameLinks(g, Stored(g, n, Bad(Cycle)));
    hide Linked;
  }

  lemma {:induction false} RunForm(kids: Kids, s: Store, stack0: seq<Node>, n: Node, run: nat, h: seq<Lookup>, seen: seq<Option<Obj>>)
    requires kids.Values <= s.g.Keys && n in s.g && n.def.Computed? && |h| == |seen| <= n.def.bound && n !in stack0
    requires WellFormed(s.g, stack0 + [n]) && StackInside(s.g, stack0 + [n])
    ensures var s' := RunF(kids, s, stack0 + [n], n, run, h, seen);
            WellFormed(s'.g, stack0) && Settled(s'.g[n]) && ProgressBut(s.g, s'.g, n) && s.mem.clock <= s'.mem.clock
    decreases Waiting(s.g), 4, n.def.bound - |h|
  {
    hide WellFormed, ProgressBut, LookF, Settled, Finished;
    match Verdict(n, h) {
      case Some(o) =>
        FinishedSettles(s, n, run, h, seen, o);
        StoredForm(s.g, Finished(s, n, run, h, seen, o).g, stack0, n);
      case None =>
        var (sight, s2) := LookF(kids, s, stack0 + [n], n.def.step(h), run, h, seen);
        LookForm(kids, s, stack0, n, n.def.step(h), run, h, seen);
        RunForm(kids, s2, stack0, n, run, h + [sight.look], seen + [sight.obj]);
        ProgressTwice(s.g, s2.g, RunF(kids, s2, stack0 + [n], n, run, h + [sight.look], seen + [sight.obj]).g, n);
    }
  }

  lemma {:induction false} LookForm(kids: Kids, s: Store, stack0: seq<Node>, n: Node, a: Action, run: nat, h: seq<Lookup>, seen: seq<Option<Obj>>)
    requires kids.Values <= s.g.Keys && n in s.g && n !in stack0 && (a.Peek? || a.Member?)
    requires WellFormed(s.g, stack0 + [n]) && StackInside(s.g, stack0 + [n])
    ensures var s2 := LookF(kids, s, stack0 + [n], a, run, h, seen).1;
            WellFormed(s2.g, stack0 + [n]) && StackInside(s2.g, stack0 + [n]) && ProgressBut(s.g, s2.g, n) &&
            s.mem.clock <= s2.mem.clock
    decreases Waiting(s.g), 3, 0
  {
    hide WellFormed, ChildF, Advanced;
    NoProgress(s.g, n);
    ChildForm(kids, s, stack0, n, a.name, a.Member?);
  }

  lemma {:induction false} ChildForm(kids: Kids, s: Store, stack0: seq<Node>, n: Node, name: Name, recorded: bool)
    requires kids.Values <= s.g.Keys && n in s.g && n !in stack0
    requires WellFormed(s.g, stack0 + [n]) && StackInside(s.g, stack0 + [n])
    ensures var s2 := ChildF(kids, s, stack0 + [n], name, recorded).1;
            WellFormed(s2.g, stack0 + [n]) && StackInside(s2.g, stack0 + [n]) && ProgressBut(s.g, s2.g, n) &&
            s.mem.clock <= s2.mem.clock
    decreases Waiting(s.g), 1, 0
  {
    hide WellFormed, ResolveF, Advanced;
    var stack := stack0 + [n];
    NoProgress(s.g, n);
    if name in kids && !(!recorded && s.g[kids[name]].state == Resolving) {
      var c := kids[name];
      var s1 := if recorded then s.(g := EdgeAdded(s.g, stack, c)) else s;
      assert StackInside(s.g, stack0) by { assert forall i :: 0 <= i < |stack0| ==> stack0[i] == stack[i]; }
      EdgeKeepsForm(s.g, stack, c);
      EdgeKeepsWaiting(s.g, stack, c);
      EdgeIsProgress(s.g, stack0, n, c);
      ResolveForm(kids, s1, stack, c);
      var s2 := ResolveF(kids, s1, stack, c);
      WellFormedStack(s2.g, stack);
      ProgressOfAll(s1.g, s2.g, n);
      ProgressTwice(s.g, s1.g, s2.g, n);
    }
  }

  /** A child resolved on demand shows its outcome, null for a failure or no value, and if
      recorded is a dep of the innermost node being resolved; otherwise the deps of that node
      stay. A bare identifier of a node being resolved shows null, and changes nothing. */
  ghost predicate ChildShown(kids: Kids, s: Store, s': Store, stack: seq<Node>, name: Name, recorded: bool, sight: Sight)
    requires kids.Values <= s.g.Keys == s'.g.Keys && StackInside(s.g, stack)
  {
    if name !in kids then sight == Sight(Missing, None) && s' == s
    else
      var c := kids[name];
      if !recorded && s.g[c].state == Resolving then sight == Sight(Null, None) && s' == s
      else
        && Settled(s'.g[c])
        && sight.look == (if s'.g[c].state == Resolved && s'.g[c].value != NoValue then Found(s'.g[c].value) else Null)
        && (|stack| > 0 ==>
              var top := stack[|stack| - 1];
              s'.g[top].deps == if recorded && top != c then s.g[top].deps + {c} else s.g[top].deps)
  }

  lemma ChildShows(kids: Kids, s: Store, stack: seq<Node>, name: Name, recorded: bool)
    requires kids.Values <= s.g.Keys && WellFormed(s.g, stack) && StackInside(s.g, stack)
    ensures var (sight, s') := ChildF(kids, s, stack, name, recorded);
            ChildShown(kids, s, s', stack, name, recorded, sight)
  {
    hide WellFormed, ResolveF, Progress;
    if name in kids && (recorded || s.g[kids[name]].state != Resolving) {
      var c := kids[name];
      var s1 := if recorded then s.(g := EdgeAdded(s.g, stack, c)) else s;
      EdgeKeepsForm(s.g, stack, c);
      ResolveForm(kids, s1, stack, c);
      ChildStep(kids, s, stack, name, recorded);
      if |stack| > 0 { RunningKeepsDeps(s1.g, ResolveF(kids, s1, stack, c).g, stack); }
    }
  }

  /** A member that the struct value remembers is shown without lookup and edge. Any other is
      a recorded child, and remembered by a struct value that lasts, if it was found; a struct
      value found there lasts too. */
  ghost predicate MemberShown(kids: Kids, s: Store, s': Store, stack: seq<Node>, o: Option<Obj>, name: Name, sight: Sight)
    requires kids.Values <= s.g.Keys == s'.g.Keys && StackInside(s.g, stack)
  {
    var held := Remembered(s.mem, o, name);
    if held.Some? then sight == Sight(Found(held.value.value), held.value.obj) && s' == s
    else
      ChildShown(kids, s, s', stack, name, true, sight) &&
      (o.Some? && sight.look.Found? ==>
         Remembered(s'.mem, o, name) == Some(Held(sight.look.v, sight.obj)) && (sight.look.v.StructValue? ==> sight.obj.Some?))
  }

  lemma MemberShows(kids: Kids, s: Store, stack: seq<Node>, o: Option<Obj>, name: Name, run: nat, i: nat)
    requires kids.Values <= s.g.Keys && WellFormed(s.g, stack) && StackInside(s.g, stack)
    ensures var (sight, s') := MemberF(kids, s, stack, o, name, run, i);
            MemberShown(kids, s, s', stack, o, name, sight)
  {
    hide WellFormed, ChildF;
    ChildShows(kids, s, stack, name, true);
  }

  /** A bare identifier is an unrecorded child. A member is missing only where its name is
      unknown, or its struct value was not shown, or has not that many parents. */
  ghost predicate LookupShown(kids: Kids, s: Store, s': Store, stack: seq<Node>, a: Action, h: seq<Lookup>, seen: seq<Option<Obj>>, sight: Sight)
    requires kids.Values <= s.g.Keys == s'.g.Keys && StackInside(s.g, stack) && (a.Peek? || a.Member?)
  {
    match a
    case Peek(name) => ChildShown(kids, s, s', stack, name, false, sight)
    case Member(via, name) =>
      if via.Seen? && !(via.i < |h| && h[via.i].Found? && h[via.i].v.StructValue? && via.up <= h[via.i].v.parents) then
        sight == Sight(Missing, None) && s' == s
      else MemberShown(kids, s, s', stack, SharedAt(seen, via), name, sight)
  }

  lemma NoProgress(g: Graph, n: Node)
    requires n in g
    ensures ProgressBut(g, g, n)
  {}

  lemma ProgressOfAll(g: Graph, h: Graph, n: Node)
    requires n in g && Progress(g, h)
    ensures ProgressBut(g, h, n)
  {}
}
