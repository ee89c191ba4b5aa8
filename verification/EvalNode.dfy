/** Nodes of the lazy evaluation tree: cached results, dependency edges, and dirtying. */
module EvalNode {
  import opened Options

  /** A struct value shows its scope, and how many parents can be reached from it. */
  datatype Value =
    | NoValue
    | IntValue(i: int) | UintValue(u: nat) | FloatValue(f: real) | BoolValue(b: bool)
    | BytesValue(bs: seq<int>) | StrValue(s: string) | EnumValue(e: int, name: string)
    | StructValue(scope: nat, parents: nat) | ArrayValue

  /** The kinds SetValue accepts. */
  predicate Primitive(v: Value)
  {
    v.IntValue? || v.UintValue? || v.FloatValue? || v.BoolValue? || v.BytesValue? || v.StrValue? || v.EnumValue?
  }

  datatype EvalError = Cycle | Failed(msg: string)

  datatype Outcome = Good(v: Value) | Bad(e: EvalError)

  datatype State = Unresolved | Resolving | Resolved | Error

  /** What an expression sees of a child: LookupChild's two results. */
  datatype Lookup = Found(v: Value) | Null | Missing

  /** A child of a scope, by identifier. */
  datatype Name = Name(scope: nat, id: string)

  /** A struct value at hand in an evaluation: of the scope itself (`up` is 0) or of a scope
      around it, as `_parent._parent`; `_root`; or the one that lookup `i` showed, or a parent
      of that. */
  datatype Ref = Own(up: nat) | Root | Seen(i: nat, up: nat)

  /** The identity of a struct value that outlives an evaluation: the evaluation that made it,
      and what it was there. */
  datatype Obj = Obj(run: nat, ref: Ref)

  /** The next thing an expression does, given the lookups it has made so far. A `Peek` is the
      bare identifier of a sibling, which leaves no edge. A `Member` is read through a struct
      value, as in `_root.x` or `a.b`: by LookupChild, which leaves one, unless the struct
      value remembers the member. What one evaluation has found it does not look up again: it
      has its earlier lookups at hand. If the result is a struct value, `from` says which. */
  datatype Action =
    | Return(v: Value, from: Option<Ref>) | Fail(msg: string)
    | Peek(name: Name) | Member(via: Ref, name: Name)

  /** A leaf holds what the stream says; a value instance has an expression. Expressions
      are arbitrary deterministic readers: `step` maps the lookups so far to the next
      action, and an expression makes at most `bound` lookups. */
  datatype Def = Leaf(source: Outcome) | Computed(step: seq<Lookup> -> Action, bound: nat)

  /** The contents of a node's mutable fields. */
  datatype Cell = Cell(state: State, value: Value, err: Option<EvalError>, deps: set<Node>, rdeps: set<Node>, obj: Option<Obj>)

  type Graph = map<Node, Cell>

  class Node {
    const def: Def
    var state: State
    var value: Value
    var err: Option<EvalError>
    var deps: set<Node>
    var rdeps: set<Node>
    /** The struct value that exprVal keeps, if it keeps one. */
    var obj: Option<Obj>

    ghost function Contents(): Cell
      reads this
    {
      Cell(state, value, err, deps, rdeps, obj)
    }

    constructor (def: Def)
      ensures this.def == def
      ensures Contents() == Cell(Unresolved, NoValue, None, {}, {}, None)
    {
      this.def := def;
      state, value, err, deps, rdeps, obj := Unresolved, NoValue, None, {}, {}, None;
    }

    /** MarkDirty: exactly this node and the nodes that depended on it, directly or through
        others, become Unresolved. */
    method MarkDirty(ghost all: set<Node>)
      requires this in all && Linked(Snap(all))
      modifies all
      ensures Snap(all) == Dirtied(old(Snap(all)), Dependents(old(Snap(all)), this))
    {
      ghost var g := Snap(all);
      NothingDirtied(g);
      var visited := MarkDirtyFrom(all, g, {});
      ClosedHoldsDependents(g, this, visited);
      assert visited == Dependents(g, this);
    }

    /** SetValue: this node becomes Resolved with the new value, exactly the nodes that
        depended on it become Unresolved. Only primitive values are accepted. */
    method SetValue(v: Value, ghost all: set<Node>) returns (ok: bool)
      requires this in all && Linked(Snap(all))
      modifies all
      ensures ok == Primitive(v) == !(v.NoValue? || v.StructValue? || v.ArrayValue?)
      ensures !ok ==> Snap(all) == old(Snap(all))
      ensures ok ==> Snap(all) == ValueSet(old(Snap(all)), this, v)
      ensures ok ==> state == Resolved && value == v && obj == None
    {
      hide Dependents, Readers, Dirtied;
      if !Primitive(v) { return false; }
      ghost var g := Snap(all);
      DirtyReaders(all);
      assert Contents() == Dirtied(g, Readers(g, this))[this];
      value, obj, state := v, None, Resolved;
      assert Snap(all) == ValueSet(g, this, v);
      ok := true;
    }

    /** The loops of SetValue: one walk per direct dependent, each with fresh marks. */
    method DirtyReaders(ghost all: set<Node>)
      requires this in all && Linked(Snap(all))
      modifies all
      ensures Snap(all) == Dirtied(old(Snap(all)), Readers(old(Snap(all)), this))
    {
      hide Dependents, Readers, Linked, ClosedUp, Dirtied;
      ghost var g := Snap(all);
      ghost var dirty: set<Node> := {};
      var pending := rdeps;
      NothingDirtied(g);
      assert ClosedUp(g, {}) by { NothingClosed(g); }
      while pending != {}
        invariant pending <= g[this].rdeps && dirty <= Readers(g, this)
        invariant Snap(all) == Dirtied(g, dirty) && ClosedUp(g, dirty)
        invariant g[this].rdeps - pending <= dirty
      {
        ghost var g1 := Snap(all);
        var d :| d in pending;
        pending := pending - {d};
        RdepsInside(g, this, d);
        DirtiedLinked(g, dirty);
        d.MarkDirty(all);
        DirtiedTwice(g, dirty, d);
        dirty := dirty + Dependents(g1, d);
        ReadersOfReader(g, this, d);
      }
      ClosedHoldsReaders(g, this, dirty);
    }

    /** markDirty. `g` is the graph before the walk began; the visited nodes are the
        dirtied ones, and their forward edges are gone. */
    method MarkDirtyFrom(ghost all: set<Node>, ghost g: Graph, visited0: set<Node>) returns (visited: set<Node>)
      requires this in all && g.Keys == all && Linked(g)
      requires visited0 <= all && Snap(all) == Dirtied(g, visited0)
      modifies all
      ensures visited0 + {this} <= visited <= all && Snap(all) == Dirtied(g, visited)
      ensures forall m :: m in visited - visited0 ==> m in Dependents(g, this) && g[m].rdeps <= visited
      decreases all - visited0
    {
      hide Dependents, Dirtied, Linked;
      visited := visited0;
      if this in visited { return; }
      visited := visited + {this};
      SelfDependent(g, this);
      var dependents := Reset(all, g, visited0);
      var pending := dependents;
      while pending != {}
        invariant pending <= dependents
        invariant visited0 + {this} <= visited <= all && Snap(all) == Dirtied(g, visited)
        invariant forall m :: m in visited - visited0 ==> m in Dependents(g, this) && (m != this ==> g[m].rdeps <= visited)
        invariant dependents - pending <= visited
      {
        var d :| d in pending;
        pending := pending - {d};
        ghost var before := visited;
        assert d in all by { RdepsInside(g, this, d); }
        visited := d.MarkDirtyFrom(all, g, visited);
        forall m | m in visited - before ensures m in Dependents(g, this) {
          DependentOfReader(g, this, d, m);
        }
      }
    }

    /** The assignments of markDirty before its recursive calls; the result is the
        snapshot of the dependents. */
    method Reset(ghost all: set<Node>, ghost g: Graph, ghost visited0: set<Node>) returns (dependents: set<Node>)
      requires this in all && g.Keys == all && Linked(g)
      requires this !in visited0 && visited0 <= all && Snap(all) == Dirtied(g, visited0)
      modifies all
      ensures Snap(all) == Dirtied(g, visited0 + {this}) && dependents == g[this].rdeps - visited0
    {
      hide Linked, Dirtied;
      DirtyOne(g, visited0, this);
      assert Contents() == Dirtied(g, visited0)[this];
      state, value, obj, err := Unresolved, NoValue, None, None;
      dependents := rdeps;
      DropForwardEdges(all);
      deps := {};
    }

    /** The loop of markDirty that takes this node out of the rdeps of its deps. */
    method DropForwardEdges(ghost all: set<Node>)
      requires this in all && deps <= all
      modifies all
      ensures forall m :: m in all ==> m.Contents() == old(m.Contents()).(rdeps := if m in old(deps) then old(m.rdeps) - {this} else old(m.rdeps))
    {
      var pending := deps;
      while pending != {}
        invariant pending <= old(deps)
        invariant forall m :: m in all ==>
          m.Contents() == old(m.Contents()).(rdeps := if m in old(deps) - pending then old(m.rdeps) - {this} else old(m.rdeps))
      {
        var d :| d in pending;
        d.rdeps := d.rdeps - {this};
        pending := pending - {d};
      }
    }
  }

  ghost function Snap(all: set<Node>): (g: Graph)
    reads all
    ensures g.Keys == all
  {
    map n | n in all :: n.Contents()
  }

  /** deps and rdeps are mutual inverses and stay inside the graph. */
  ghost predicate Linked(g: Graph)
  {
    && (forall a :: a in g ==> g[a].deps <= g.Keys && g[a].rdeps <= g.Keys)
    && (forall a, b :: a in g && b in g ==> (b in g[a].deps <==> a in g[b].rdeps))
  }

  lemma SameLinks(g: Graph, h: Graph)
    requires Linked(g) && h.Keys == g.Keys
    requires forall m :: m in g ==> h[m].deps == g[m].deps && h[m].rdeps == g[m].rdeps
    ensures Linked(h)
  {}

  // ---- Transitive dependents ---------------------------------------------

  /** The nodes that reach `n` in at most `k` steps along deps. */
  ghost function Within(g: Graph, n: Node, k: nat): set<Node>
    requires n in g
  {
    if k == 0 then {n}
    else Within(g, n, k - 1) + set m | m in g && exists x :: x in g[m].deps && x in Within(g, n, k - 1)
  }

  /** `n` and the nodes that depend on it, directly or through others. */
  ghost function Dependents(g: Graph, n: Node): (s: set<Node>)
    requires n in g
    ensures s <= g.Keys
  {
    set m | m in g && exists k: nat :: m in Within(g, n, k)
  }

  /** The nodes that read `n`, and their dependents. */
  ghost function Readers(g: Graph, n: Node): (s: set<Node>)
    requires n in g && Linked(g)
    ensures s <= g.Keys
  {
    set m | m in g && exists d :: d in g[n].rdeps && m in Dependents(g, d)
  }

  /** A set that with every node holds the nodes that read it. */
  ghost predicate ClosedUp(g: Graph, s: set<Node>)
  {
    s <= g.Keys && forall m :: m in s ==> g[m].rdeps <= s
  }

  lemma NothingClosed(g: Graph)
    ensures ClosedUp(g, {})
  {}

  lemma SelfDependent(g: Graph, n: Node)
    requires n in g
    ensures n in Dependents(g, n)
  {
    assert n in Within(g, n, 0);
  }

  lemma {:induction false} ClosedHoldsWithin(g: Graph, n: Node, s: set<Node>, k: nat)
    requires Linked(g) && ClosedUp(g, s) && n in s
    ensures Within(g, n, k) <= s
  {
    if k > 0 { ClosedHoldsWithin(g, n, s, k - 1); }
  }

  lemma ClosedHoldsDependents(g: Graph, n: Node, s: set<Node>)
    requires Linked(g) && ClosedUp(g, s) && n in s
    ensures Dependents(g, n) <= s
  {
    forall m | m in Dependents(g, n) ensures m in s {
      var k: nat :| m in Within(g, n, k);
      ClosedHoldsWithin(g, n, s, k);
    }
  }

  /** A reader of a dependent is a dependent. */
  lemma DependentsClosed(g: Graph, n: Node)
    requires Linked(g) && n in g
    ensures ClosedUp(g, Dependents(g, n))
  {
    forall m, r | m in Dependents(g, n) && r in g[m].rdeps ensures r in Dependents(g, n) {
      var k: nat :| m in Within(g, n, k);
      assert m in g[r].deps;
      assert r in Within(g, n, k + 1);
    }
  }

  lemma RdepsInside(g: Graph, n: Node, d: Node)
    requires Linked(g) && n in g && d in g[n].rdeps
    ensures d in g
  {}

  lemma DependentOfReader(g: Graph, n: Node, d: Node, m: Node)
    requires Linked(g) && n in g && d in g[n].rdeps && m in Dependents(g, d)
    ensures m in Dependents(g, n)
  {
    SelfDependent(g, n);
    DependentsClosed(g, n);
    ClosedHoldsDependents(g, d, Dependents(g, n));
  }

  lemma ReadersClosed(g: Graph, n: Node)
    requires Linked(g) && n in g
    ensures ClosedUp(g, Readers(g, n)) && g[n].rdeps <= Readers(g, n)
  {
    hide Dependents;
    forall d | d in g[n].rdeps ensures d in Readers(g, n) {
      RdepsInside(g, n, d);
      SelfDependent(g, d);
    }
    forall m, r | m in Readers(g, n) && r in g[m].rdeps ensures r in Readers(g, n) {
      var d :| d in g[n].rdeps && m in Dependents(g, d);
      DependentsClosed(g, d);
    }
  }

  lemma ReadersDepend(g: Graph, n: Node)
    requires Linked(g) && n in g
    ensures Readers(g, n) <= Dependents(g, n)
  {
    hide Dependents;
    forall m | m in Readers(g, n) ensures m in Dependents(g, n) {
      var d :| d in g[n].rdeps && m in Dependents(g, d);
      DependentOfReader(g, n, d, m);
    }
  }

  /** Other nodes depend on `n` exactly through one of its readers. */
  lemma ReadersAreDependents(g: Graph, n: Node)
    requires Linked(g) && n in g
    ensures Dependents(g, n) == Readers(g, n) + {n}
    ensures ClosedUp(g, Readers(g, n)) && g[n].rdeps <= Readers(g, n)
  {
    hide Dependents, Readers, Linked;
    SelfDependent(g, n);
    ReadersDepend(g, n);
    ReadersClosed(g, n);
    ClosedHoldsDependents(g, n, Readers(g, n) + {n});
  }

  lemma ReadersOfReader(g: Graph, n: Node, d: Node)
    requires Linked(g) && n in g && d in g[n].rdeps
    ensures Dependents(g, d) <= Readers(g, n)
  {}

  lemma ClosedHoldsReaders(g: Graph, n: Node, s: set<Node>)
    requires Linked(g) && n in g && ClosedUp(g, s) && g[n].rdeps <= s <= Readers(g, n)
    ensures s == Readers(g, n)
  {
    forall m | m in Readers(g, n) ensures m in s {
      var d :| d in g[n].rdeps && m in Dependents(g, d);
      ClosedHoldsDependents(g, d, s);
    }
  }

  // ---- Dirtied graphs ----------------------------------------------------

  /** The graph after dirtying `s`: those nodes are reset, and only their forward edges go. */
  ghost function Dirtied(g: Graph, s: set<Node>): (g': Graph)
    ensures g'.Keys == g.Keys
  {
    map n | n in g :: if n in s then Cell(Unresolved, NoValue, None, {}, g[n].rdeps - s, None) else g[n].(rdeps := g[n].rdeps - s)
  }

  /** The graph after an edit of `n`. */
  ghost function ValueSet(g: Graph, n: Node, v: Value): (g': Graph)
    requires n in g && Linked(g)
    ensures g'.Keys == g.Keys
  {
    var d := Dirtied(g, Readers(g, n));
    d[n := d[n].(state := Resolved, value := v, obj := None)]
  }

  lemma NothingDirtied(g: Graph)
    ensures Dirtied(g, {}) == g
  {
    assert forall n :: n in g ==> g[n].rdeps - {} == g[n].rdeps;
  }

  /** A dirtied node is as if it had never been resolved, except that nodes which were not
      dirtied may still depend on it; of the others only rdeps change, by the dirtied nodes. */
  lemma DirtiedCells(g: Graph, s: set<Node>, n: Node)
    requires n in g
    ensures var c := Dirtied(g, s)[n];
            c.rdeps == g[n].rdeps - s &&
            if n in s then
              c.state == Unresolved && c.value == NoValue && c.err == None && c.obj == None && c.deps == {}
            else
              c.state == g[n].state && c.value == g[n].value && c.err == g[n].err && c.obj == g[n].obj && c.deps == g[n].deps
  {}

  /** An edited node holds the value, and keeps its deps unless it depended on itself. */
  lemma EditedCell(g: Graph, n: Node, v: Value)
    requires n in g && Linked(g)
    ensures var c := ValueSet(g, n, v)[n];
            c.state == Resolved && c.value == v && c.obj == None && c.deps == if n in Readers(g, n) then {} else g[n].deps
  {
    hide Readers, Linked;
  }

  lemma DirtiedLinked(g: Graph, s: set<Node>)
    requires Linked(g)
    ensures Linked(Dirtied(g, s))
  {}

  /** Dirtying one more node: its own fields, and its entry in the rdeps of its deps. */
  lemma DirtyOne(g: Graph, s: set<Node>, n: Node)
    requires Linked(g) && n in g && n !in s
    ensures Dirtied(g, s)[n].deps == g[n].deps <= g.Keys && Dirtied(g, s)[n].rdeps == g[n].rdeps - s
    ensures forall m :: m in g ==>
      var c := Dirtied(g, s)[m];
      var rdeps := if m in g[n].deps then c.rdeps - {n} else c.rdeps;
      Dirtied(g, s + {n})[m] == if m == n then Cell(Unresolved, NoValue, None, {}, rdeps, None) else c.(rdeps := rdeps)
  {
    forall m | m in g ensures (if m in g[n].deps then g[m].rdeps - s - {n} else g[m].rdeps - s) == g[m].rdeps - (s + {n}) {}
  }

  lemma DirtiedMerge(g: Graph, s: set<Node>, t: set<Node>)
    ensures Dirtied(Dirtied(g, s), t) == Dirtied(g, s + t)
  {
    forall n | n in g ensures Dirtied(Dirtied(g, s), t)[n] == Dirtied(g, s + t)[n] {
      assert g[n].rdeps - s - t == g[n].rdeps - (s + t);
    }
  }

  /** Dirtying in two walks, the second on what the first left, is dirtying at once;
      with an upward closed first part the walks together stay upward closed. */
  lemma DirtiedTwice(g: Graph, s: set<Node>, d: Node)
    requires Linked(g) && ClosedUp(g, s) && d in g
    ensures var g1 := Dirtied(g, s); var t := Dependents(g1, d);
            Dirtied(g1, t) == Dirtied(g, s + t) && ClosedUp(g, s + t) && t <= Dependents(g, d) && d in t
  {
    var g1 := Dirtied(g, s);
    var t := Dependents(g1, d);
    hide Dependents, Linked;
    DirtiedLinked(g, s);
    DirtiedMerge(g, s, t);
    SelfDependent(g1, d);
    DependentsClosed(g1, d);
    DependentsClosed(g, d);
    SelfDependent(g, d);
    ClosedHoldsDependents(g1, d, Dependents(g, d));
  }
}
