/** The conversion from expressions to hypergraphs, `sd-core/src/graph.rs`.

    The converter walks an expression with an `Environment`: a fragment of the builder
    under construction (a scope of the arena of `Builder`), the in-ports still waiting for a
    variable (`inputs`), and the out-port each variable in scope names (`outputs`). Values
    become operation nodes, thunks become thunk nodes whose bodies are converted in an
    environment of their own, and variable references are resolved once every binding of
    the expression has been processed. */
module Graph {
  import opened Common
  import B = Builder
  import F = Fragment
  import Tarjan

  // ---------------------------------------------------------------------------
  // The syntax the converter walks

  /** The expression syntax `graph.rs` is written against: a binding defines one variable,
      and an operator's arguments are values or thunks. */
  datatype Expr<O, V, A, D> = Expr(binds: seq<Bind<O, V, A, D>>, values: seq<Value<O, V, A, D>>)

  datatype Bind<O, V, A, D> = Bind(def: D, value: Value<O, V, A, D>)

  datatype Value<O, V, A, D> =
    | Variable(variable: V)
    | Op(op: O, args: seq<Arg<O, V, A, D>>)

  datatype Arg<O, V, A, D> = ValueArg(value: Value<O, V, A, D>) | ThunkArg(thunk: Thunk<O, V, A, D>)

  datatype Thunk<O, V, A, D> = Thunk(addr: A, args: seq<D>, body: Expr<O, V, A, D>)

  /** The weight of a hypergraph edge: what the out-port carries. */
  datatype Name<V, A, D> = OpName | ThunkName(addr: A) | FreeVar(variable: V) | BoundVar(def: D)

  /** `Name::to_var`: the variable an edge carries, if any (`asVar` is `AsVar::as_var`). */
  function ToVar<V, A, D>(name: Name<V, A, D>, asVar: D -> V): (r: Option<V>)
    ensures r.None? <==> name.OpName? || name.ThunkName?
    ensures name.FreeVar? ==> r == Some(name.variable)
    ensures name.BoundVar? ==> r == Some(asVar(name.def))
  {
    match name
    case OpName => None
    case ThunkName(_) => None
    case FreeVar(v) => Some(v)
    case BoundVar(d) => Some(asVar(d))
  }

  /** The hypergraphs the converter builds: operators on nodes, names on edges. */
  type SyntaxHyperGraph<O, V, A, D> = B.HyperGraph<O, Name<V, A, D>>

  datatype ConvertError<V> =
    | HyperGraphError(error: B.BuildError)
    | VariableError(variable: V)
    | Aliased(def: V, variable: V)
    | Shadowed(variable: V)
    | NoOutputError
    | ThunkOutputError

  /** The errors the walk over the syntax can raise (the rest come from `build`, or never
      arise). */
  predicate WalkError<V>(e: ConvertError<V>) {
    e.Aliased? || e.Shadowed? || e.ThunkOutputError?
  }

  /** Where the value being processed goes: to a new variable, or into an in-port. */
  datatype ProcessInput<D> = ToVariable(def: D) | ToInPort(port: nat)

  /** The weight of the out-port a processed operation gets. */
  function OutWeight<V, A, D>(input: ProcessInput<D>): (w: Name<V, A, D>)
    ensures input.ToVariable? ==> w == BoundVar(input.def)
    ensures input.ToInPort? ==> w == OpName
  {
    if input.ToVariable? then BoundVar(input.def) else OpName
  }

  /** The in-port the value is linked into, or -1. */
  function Target<D>(input: ProcessInput<D>): int {
    if input.ToInPort? then input.port else -1
  }

  /** The variables the bindings define. */
  ghost function Defined<O, V, A, D>(binds: seq<Bind<O, V, A, D>>, asVar: D -> V): set<V> {
    DefinedFrom(binds, 0, asVar)
  }

  // ---------------------------------------------------------------------------
  // What the walk accepts

  /** The walk accepts a value fed to an in-port when every thunk inside it is accepted. */
  ghost predicate ValueOk<O, V, A, D>(value: Value<O, V, A, D>, asVar: D -> V)
    decreases value
  {
    value.Op? ==> forall k :: 0 <= k < |value.args| ==> ArgOk(value.args[k], asVar)
  }

  ghost predicate ArgOk<O, V, A, D>(arg: Arg<O, V, A, D>, asVar: D -> V)
    decreases arg
  {
    if arg.ValueArg? then ValueOk(arg.value, asVar) else ThunkOk(arg.thunk, asVar)
  }

  /** `process_thunk` accepts a thunk with exactly one value and distinct parameters whose
      body is accepted with only the parameters in scope. */
  ghost predicate ThunkOk<O, V, A, D>(thunk: Thunk<O, V, A, D>, asVar: D -> V)
    decreases thunk
  {
    |thunk.body.values| == 1 && NoDup(Params(thunk.args, asVar)) &&
    ExprOk(thunk.body, (set v | v in Params(thunk.args, asVar)), 1, asVar)
  }

  /** `process_expr` accepts an expression, with the variables `vars` in scope and its first
      `n` values fed to graph outputs, when those values are accepted, every binding binds an
      operation (not a bare variable) that is accepted, and the bindings define distinct
      variables none of which is in scope. */
  ghost predicate ExprOk<O, V, A, D>(expr: Expr<O, V, A, D>, vars: set<V>, n: nat, asVar: D -> V)
    decreases expr, 1
  {
    ValuesOk(expr, n, asVar) && BindsOk(expr, vars, asVar)
  }

  /** The first `n` values of `expr` are accepted. */
  ghost predicate ValuesOk<O, V, A, D>(expr: Expr<O, V, A, D>, n: nat, asVar: D -> V)
    decreases expr, 0
  {
    forall k :: 0 <= k < n && k < |expr.values| ==> ValueOk(expr.values[k], asVar)
  }

  /** Every binding of `expr` binds an accepted operation to a fresh variable. */
  ghost predicate BindsOk<O, V, A, D>(expr: Expr<O, V, A, D>, vars: set<V>, asVar: D -> V)
    decreases expr, 0
  {
    (forall k :: 0 <= k < |expr.binds| ==> expr.binds[k].value.Op? && ValueOk(expr.binds[k].value, asVar)) &&
    BindsFresh(expr.binds, vars, 0, asVar)
  }

  /** The bindings from the `k`-th on define distinct variables, none of them in `vars`. */
  ghost predicate BindsFresh<O, V, A, D>(binds: seq<Bind<O, V, A, D>>, vars: set<V>, k: nat, asVar: D -> V) {
    (forall j :: k <= j < |binds| ==> asVar(binds[j].def) !in vars) &&
    forall i, j :: k <= i < j < |binds| ==> asVar(binds[i].def) != asVar(binds[j].def)
  }

  /** `vs[k]` is the first element of `vs` equal to an earlier one. */
  ghost predicate FirstRepeat<T>(vs: seq<T>, k: nat) {
    k < |vs| && NoDup(vs[..k]) && !NoDup(vs[..k + 1])
  }

  // ---------------------------------------------------------------------------
  // How the fragment evolves during the walk

  /** An in-port that exists and is not linked yet. */
  ghost predicate Open<N, W>(g: B.HyperGraph<N, W>, p: nat) {
    p < |g.inPorts| && g.inPorts[p].link.None?
  }

  /** No pending entry waits at in-port `p`. */
  ghost predicate NotPending<V>(entries: seq<(nat, V)>, p: nat) {
    forall k :: 0 <= k < |entries| ==> entries[k].0 != p
  }

  /** The same node, or the same thunk with a different interior list. */
  ghost predicate SameNode<N>(a: B.Node<N>, b: B.Node<N>) {
    a == b || (a.Thunk? && b.Thunk? && b == a.(nodes := b.nodes))
  }

  /** `h` is `g` after adding nodes and ports and linking open in-ports: nothing that
      existed is taken back, and an out-port whose links were live keeps them live. */
  ghost predicate Grows<N, W>(g: B.HyperGraph<N, W>, h: B.HyperGraph<N, W>) {
    |g.arena| <= |h.arena| && |g.inPorts| <= |h.inPorts| && |g.outPorts| <= |h.outPorts| &&
    h.graphInputs == g.graphInputs && h.graphOutputs == g.graphOutputs &&
    (forall k :: 0 <= k < |g.arena| ==> SameNode(g.arena[k], h.arena[k])) &&
    (forall o :: 0 <= o < |g.outPorts| ==> h.outPorts[o].weight == g.outPorts[o].weight) &&
    (forall o :: 0 <= o < |g.outPorts| && B.LinksLive(g, o) ==> B.LinksLive(h, o)) &&
    (forall i :: 0 <= i < |g.inPorts| && g.inPorts[i].link.Some? ==> h.inPorts[i].link == g.inPorts[i].link)
  }

  lemma GrowsTrans<N, W>(g1: B.HyperGraph<N, W>, g2: B.HyperGraph<N, W>, g3: B.HyperGraph<N, W>)
    requires Grows(g1, g2) && Grows(g2, g3)
    ensures Grows(g1, g3)
  {
    forall k | 0 <= k < |g1.arena| ensures SameNode(g1.arena[k], g3.arena[k]) {
      assert SameNode(g1.arena[k], g2.arena[k]) && SameNode(g2.arena[k], g3.arena[k]);
    }
  }

  /** Adding a node grows the fragment. */
  lemma ExtendsGrows<N, W>(g: B.HyperGraph<N, W>, h: B.HyperGraph<N, W>, scope: Option<nat>)
    requires F.InScope(g, scope) && F.Extends(g, h, scope) && F.ScopeKept(g, h, scope)
    ensures Grows(g, h)
  {
    forall o | 0 <= o < |g.outPorts| ensures h.outPorts[o] == g.outPorts[o] {
      assert h.outPorts[o] == h.outPorts[..|g.outPorts|][o];
    }
    forall i | 0 <= i < |g.inPorts| ensures h.inPorts[i] == g.inPorts[i] {
      assert h.inPorts[i] == h.inPorts[..|g.inPorts|][i];
    }
  }

  /** Linking an open in-port grows the fragment. */
  lemma LinkGrows<N, W>(g: B.HyperGraph<N, W>, o: nat, i: nat)
    requires B.Wf(g) && o < |g.outPorts| && Open(g, i)
    ensures Grows(g, F.Link(g, o, i))
    ensures forall q: nat :: Open(g, q) && q != i ==> Open(F.Link(g, o, i), q)
  {
    forall p | 0 <= p < |g.outPorts| && B.LinksLive(g, p) ensures B.LinksLive(F.Link(g, o, i), p) {
      F.LinkKeepsLive(g, o, i, p);
    }
  }

  /** A grown fragment has the same scopes, with the same graph outputs. */
  lemma GrowsInScope<N, W>(g: B.HyperGraph<N, W>, h: B.HyperGraph<N, W>, scope: Option<nat>)
    requires F.InScope(g, scope) && Grows(g, h)
    ensures F.InScope(h, scope) && F.ScopeOutputs(h, scope) == F.ScopeOutputs(g, scope)
  {
    if scope.Some? {
      assert SameNode(g.arena[scope.value], h.arena[scope.value]);
    }
  }

  /** One step of the walk from `g0` with pending entries `in0`: the fragment grows, every
      open in-port below `lo` other than `p` stays open, the old entries stay, and every
      new entry waits at `p` or at an in-port from `lo` on. */
  ghost predicate Progress<N, W, V>(g0: B.HyperGraph<N, W>, in0: seq<(nat, V)>,
                                    g: B.HyperGraph<N, W>, ins: seq<(nat, V)>, p: int, lo: nat) {
    Grows(g0, g) &&
    (forall q: nat :: Open(g0, q) && q != p && q < lo ==> Open(g, q)) &&
    |in0| <= |ins| && ins[..|in0|] == in0 &&
    forall k :: |in0| <= k < |ins| ==> ins[k].0 == p || ins[k].0 >= lo
  }

  /** The operation a processed `Op` value adds: the next arena slot, one in-port per
      argument, one out-port weighted `w`. */
  ghost predicate OpAdded<N, W>(g0: B.HyperGraph<N, W>, g: B.HyperGraph<N, W>, arity: nat, w: W, op: N) {
    |g0.arena| < |g.arena| && |g0.outPorts| < |g.outPorts| &&
    g.arena[|g0.arena|] == B.Operation(B.Range(|g0.inPorts|, arity), [|g0.outPorts|], op) &&
    g.outPorts[|g0.outPorts|].weight == w
  }

  /** The fresh entries of `ins` wait at in-ports from `lo` on. */
  ghost predicate EntriesFrom<V>(ins: seq<(nat, V)>, from: nat, lo: nat) {
    forall k :: from <= k < |ins| ==> ins[k].0 >= lo
  }

  // ---------------------------------------------------------------------------
  // The environment's state

  /** The environment invariant: a well-formed fragment with a live scope, every pending
      in-port open and waited at once, every variable naming an existing out-port. */
  ghost predicate Consistent<N, W, V>(g: B.HyperGraph<N, W>, scope: Option<nat>,
                                      ins: seq<(nat, V)>, outs: map<V, nat>) {
    B.Wf(g) && F.InScope(g, scope) &&
    (forall k :: 0 <= k < |ins| ==> Open(g, ins[k].0)) &&
    (forall j, k :: 0 <= j < k < |ins| ==> ins[j].0 != ins[k].0) &&
    (forall v :: v in outs ==> outs[v] < |g.outPorts|)
  }

  /** No variable of `vs` is in `outs`, and none repeats. */
  ghost predicate Unshadowed<V>(outs: map<V, nat>, vs: seq<V>) {
    (forall k :: 0 <= k < |vs| ==> vs[k] !in outs) && NoDup(vs)
  }

  /** Declaring variables `vars` at out-ports `ports` (zipped), as done for the free
      variables of the whole expression and for the parameters of a thunk: each insert that
      finds the variable already there fails with `Shadowed`. */
  method Declare<V(==, !new)>(outs: map<V, nat>, vars: seq<V>, ports: seq<nat>)
    returns (r: Result<(), ConvertError<V>>, outs': map<V, nat>)
    ensures var n := if |vars| <= |ports| then |vars| else |ports|;
      (r.Ok? <==> Unshadowed(outs, vars[..n])) &&
      (r.Ok? ==> (forall v :: v in outs' <==> v in outs || v in vars[..n]) &&
                 (forall v :: v in outs ==> outs'[v] == outs[v]) &&
                 (forall k :: 0 <= k < n ==> outs'[vars[k]] == ports[k])) &&
      (r.Err? ==> exists k :: 0 <= k < n && r.error == Shadowed(vars[k]) &&
                              Unshadowed(outs, vars[..k]) && !Unshadowed(outs, vars[..k + 1]))
    ensures forall v :: v in outs' ==> (v in outs && outs'[v] == outs[v]) || outs'[v] in ports
  {
    var n := if |vars| <= |ports| then |vars| else |ports|;
    outs' := outs;
    for k := 0 to n
      invariant DeclaredUpTo(outs, outs', vars, ports, k)
    {
      var x := vars[k];
      DeclareStep(outs, outs', vars, ports, k);
      var had := x in outs';
      outs' := outs'[x := ports[k]];
      if had {
        return Err(Shadowed(x)), outs';
      }
    }
    r := Ok(());
  }

  /** The first `k` variables are declared in `o`, on top of `outs`. */
  ghost predicate DeclaredUpTo<V(!new)>(outs: map<V, nat>, o: map<V, nat>, vars: seq<V>, ports: seq<nat>, k: nat) {
    k <= |vars| && k <= |ports| && Unshadowed(outs, vars[..k]) &&
    (forall v :: v in o <==> v in outs || v in vars[..k]) &&
    (forall v :: v in outs ==> o[v] == outs[v]) &&
    (forall j :: 0 <= j < k ==> o[vars[j]] == ports[j]) &&
    forall v :: v in o ==> (v in outs && o[v] == outs[v]) || o[v] in ports
  }

  /** Declaring the `k`-th variable: it is shadowed when it is already in `o`, and declared
      otherwise. */
  lemma DeclareStep<V(!new)>(outs: map<V, nat>, o: map<V, nat>, vars: seq<V>, ports: seq<nat>, k: nat)
    requires DeclaredUpTo(outs, o, vars, ports, k) && k < |vars| && k < |ports|
    ensures vars[k] in o ==> !Unshadowed(outs, vars[..k + 1])
    ensures vars[k] !in o ==> DeclaredUpTo(outs, o[vars[k] := ports[k]], vars, ports, k + 1)
  {
    var x := vars[k];
    PrefixSnoc(vars, k);
    if x in o {
      if x !in outs {
        var j :| 0 <= j < k && vars[..k][j] == x;
        assert vars[..k + 1][j] == vars[..k + 1][k];
      }
    } else {
      assert x !in vars[..k];
    }
  }


  /** Declaring into an empty environment fails exactly when a variable repeats, and then
      names the first repetition. */
  lemma DeclaredFresh<V>(vs: seq<V>, r: Result<(), ConvertError<V>>)
    requires r.Ok? <==> Unshadowed(map[], vs)
    requires r.Err? ==> exists k :: 0 <= k < |vs| && r.error == Shadowed(vs[k]) &&
                                    Unshadowed(map[], vs[..k]) && !Unshadowed(map[], vs[..k + 1])
    ensures r.Ok? <==> NoDup(vs)
    ensures r.Err? ==> exists k: nat :: FirstRepeat(vs, k) && r.error == Shadowed(vs[k])
  {
  }

  /** An entry whose variable is not in `outs`. */
  function Waiting<V>(outs: map<V, nat>): ((nat, V)) -> bool {
    (e: (nat, V)) => e.1 !in outs
  }

  /** The entries whose variable is not in `outs`: what `retain` keeps. */
  function Unresolved<V(!new)>(entries: seq<(nat, V)>, outs: map<V, nat>): (r: seq<(nat, V)>)
    ensures forall e :: e in r <==> e in entries && e.1 !in outs
  {
    Filter(entries, Waiting(outs))
  }

  /** The invariant of `LinkUp` after the first `k` entries: `h` and `kept` are what the
      loop has built. */
  ghost predicate Linking<N, W, V(!new)>(g: B.HyperGraph<N, W>, scope: Option<nat>, pending: seq<(nat, V)>,
                                         outs: map<V, nat>, h: B.HyperGraph<N, W>, kept: seq<(nat, V)>, k: nat) {
    k <= |pending| &&
    kept == Unresolved(pending[..k], outs) &&
    (forall j :: k <= j < |pending| ==> Open(h, pending[j].0)) &&
    (forall i, j :: 0 <= i < |kept| && k <= j < |pending| ==> kept[i].0 != pending[j].0) &&
    (forall i :: 0 <= i < |kept| ==> Open(h, kept[i].0)) &&
    (forall i, j :: 0 <= i < j < |kept| ==> kept[i].0 != kept[j].0) &&
    (forall j :: 0 <= j < k && pending[j].1 in outs ==>
       pending[j].0 < |h.inPorts| && h.inPorts[pending[j].0].link == Some(outs[pending[j].1])) &&
    (forall q: nat :: Open(g, q) && NotPending(pending, q) ==> Open(h, q))
  }

  /** What `LinkUp` keeps of the fragment while it links. */
  ghost predicate LinkFrame<N, W>(g: B.HyperGraph<N, W>, scope: Option<nat>, h: B.HyperGraph<N, W>) {
    B.Wf(h) && F.InScope(h, scope) && Grows(g, h) && |h.outPorts| == |g.outPorts|
  }

  lemma LinkingStart<N, W, V(!new)>(g: B.HyperGraph<N, W>, scope: Option<nat>, pending: seq<(nat, V)>, outs: map<V, nat>)
    requires Consistent(g, scope, pending, outs)
    ensures Linking(g, scope, pending, outs, g, [], 0) && LinkFrame(g, scope, g)
  {
    assert pending[..0] == [];
  }

  /** An entry whose variable is in scope is linked. */
  lemma LinkingLink<N, W, V(!new)>(g: B.HyperGraph<N, W>, scope: Option<nat>, pending: seq<(nat, V)>,
                                   outs: map<V, nat>, h: B.HyperGraph<N, W>, kept: seq<(nat, V)>, k: nat)
    requires Consistent(g, scope, pending, outs) && Linking(g, scope, pending, outs, h, kept, k)
    requires LinkFrame(g, scope, h)
    requires k < |pending| && pending[k].1 in outs
    ensures outs[pending[k].1] < |h.outPorts| && Open(h, pending[k].0)
    ensures var h' := F.Link(h, outs[pending[k].1], pending[k].0);
      Linking(g, scope, pending, outs, h', kept, k + 1) && LinkFrame(g, scope, h')
  {
    var e := pending[k];
    var h' := F.Link(h, outs[e.1], e.0);
    PrefixSnoc(pending, k);
    FilterSnoc(pending[..k], e, Waiting(outs));
    LinkGrows(h, outs[e.1], e.0);
    GrowsTrans(g, h, h');
    GrowsInScope(h, h', scope);
    forall j | k + 1 <= j < |pending| ensures Open(h', pending[j].0) {
      assert pending[j].0 != e.0;
    }
    forall q: nat | Open(g, q) && NotPending(pending, q) ensures Open(h', q) {
      assert q != pending[k].0;
    }
  }

  /** An entry whose variable is not in scope is kept. */
  lemma LinkingKeep<N, W, V(!new)>(g: B.HyperGraph<N, W>, scope: Option<nat>, pending: seq<(nat, V)>,
                                   outs: map<V, nat>, h: B.HyperGraph<N, W>, kept: seq<(nat, V)>, k: nat)
    requires Linking(g, scope, pending, outs, h, kept, k)
    requires forall j :: k < j < |pending| ==> pending[k].0 != pending[j].0
    requires k < |pending| && pending[k].1 !in outs
    ensures Linking(g, scope, pending, outs, h, kept + [pending[k]], k + 1)
  {
    var e := pending[k];
    PrefixSnoc(pending, k);
    FilterSnoc(pending[..k], e, Waiting(outs));
    var kept' := kept + [e];
    forall i, j | 0 <= i < |kept'| && k + 1 <= j < |pending| ensures kept'[i].0 != pending[j].0 {
    }
  }

  /** The `retain` at the end of `process_expr` ("link up loops"): every pending in-port
      whose variable is in scope is linked to that variable's out-port and dropped. */
  method LinkUp<N, W, V(!new)>(g: B.HyperGraph<N, W>, scope: Option<nat>, pending: seq<(nat, V)>, outs: map<V, nat>)
    returns (h: B.HyperGraph<N, W>, kept: seq<(nat, V)>)
    requires Consistent(g, scope, pending, outs)
    ensures Consistent(h, scope, kept, outs) && Grows(g, h)
    ensures kept == Unresolved(pending, outs)
    ensures forall k :: 0 <= k < |pending| && pending[k].1 in outs ==>
      h.inPorts[pending[k].0].link == Some(outs[pending[k].1])
    ensures forall q: nat :: Open(g, q) && NotPending(pending, q) ==> Open(h, q)
  {
    h, kept := g, [];
    LinkingStart(g, scope, pending, outs);
    for k := 0 to |pending|
      invariant Linking(g, scope, pending, outs, h, kept, k) && LinkFrame(g, scope, h)
    {
      var e := pending[k];
      if e.1 in outs {
        LinkingLink(g, scope, pending, outs, h, kept, k);
        h := F.Link(h, outs[e.1], e.0);
      } else {
        LinkingKeep(g, scope, pending, outs, h, kept, k);
        kept := kept + [e];
      }
    }
    LinkingDone(g, scope, pending, outs, h, kept);
  }

  lemma LinkingDone<N, W, V(!new)>(g: B.HyperGraph<N, W>, scope: Option<nat>, pending: seq<(nat, V)>,
                                   outs: map<V, nat>, h: B.HyperGraph<N, W>, kept: seq<(nat, V)>)
    requires Consistent(g, scope, pending, outs)
    requires Linking(g, scope, pending, outs, h, kept, |pending|) && LinkFrame(g, scope, h)
    ensures Consistent(h, scope, kept, outs) && kept == Unresolved(pending, outs)
  {
    assert pending[..|pending|] == pending;
  }

  // ---------------------------------------------------------------------------
  // Steps of the walk

  lemma ProgressRefl<N, W, V>(g: B.HyperGraph<N, W>, ins: seq<(nat, V)>, p: int, lo: nat)
    ensures Progress(g, ins, g, ins, p, lo)
  {
    assert ins[..|ins|] == ins;
  }

  /** Two steps make one, when the second links `p`, nothing, or a port from `lo` on. */
  lemma ProgressThen<N, W, V>(g0: B.HyperGraph<N, W>, in0: seq<(nat, V)>, g1: B.HyperGraph<N, W>, in1: seq<(nat, V)>,
                              g2: B.HyperGraph<N, W>, in2: seq<(nat, V)>, p: int, lo: nat, p2: int, lo2: nat)
    requires Progress(g0, in0, g1, in1, p, lo) && Progress(g1, in1, g2, in2, p2, lo2)
    requires p2 == p || p2 < 0 || p2 >= lo
    requires lo <= lo2
    ensures Progress(g0, in0, g2, in2, p, lo)
  {
    GrowsTrans(g0, g1, g2);
    assert in2[..|in0|] == in2[..|in1|][..|in0|];
    forall k | |in0| <= k < |in2| ensures in2[k].0 == p || in2[k].0 >= lo {
      if k < |in1| {
        assert in2[k] == in2[..|in1|][k];
      }
    }
  }

  /** Adding a node closes no in-port and makes a step. */
  lemma ProgressAdded<N, W, V>(g: B.HyperGraph<N, W>, h: B.HyperGraph<N, W>, scope: Option<nat>,
                               ins: seq<(nat, V)>, outs: map<V, nat>, p: int, lo: nat)
    requires Consistent(g, scope, ins, outs) && B.Wf(h) && F.Extends(g, h, scope) && F.ScopeKept(g, h, scope)
    ensures Consistent(h, scope, ins, outs) && Progress(g, ins, h, ins, p, lo)
    ensures forall q: nat :: Open(g, q) ==> Open(h, q)
  {
    ExtendsGrows(g, h, scope);
    ProgressRefl(g, ins, p, lo);
    forall q: nat | Open(g, q) ensures Open(h, q) {
      assert h.inPorts[q] == h.inPorts[..|g.inPorts|][q];
    }
  }

  /** Linking an open in-port nobody waits at keeps the environment consistent. */
  lemma ProgressLinked<N, W, V>(g: B.HyperGraph<N, W>, scope: Option<nat>, ins: seq<(nat, V)>, outs: map<V, nat>,
                                o: nat, p: nat)
    requires Consistent(g, scope, ins, outs) && o < |g.outPorts| && Open(g, p) && NotPending(ins, p)
    ensures Consistent(F.Link(g, o, p), scope, ins, outs) && Progress(g, ins, F.Link(g, o, p), ins, p, |g.inPorts|)
  {
    LinkGrows(g, o, p);
    GrowsInScope(g, F.Link(g, o, p), scope);
    ProgressRefl(g, ins, p, |g.inPorts|);
  }

  /** An entry at an open in-port nobody waits at. */
  lemma ProgressPending<N, W, V>(g: B.HyperGraph<N, W>, scope: Option<nat>, ins: seq<(nat, V)>, outs: map<V, nat>,
                                 p: nat, v: V)
    requires Consistent(g, scope, ins, outs) && Open(g, p) && NotPending(ins, p)
    ensures Consistent(g, scope, ins + [(p, v)], outs) && Progress(g, ins, g, ins + [(p, v)], p, |g.inPorts|)
  {
    assert (ins + [(p, v)])[..|ins|] == ins;
  }

  /** An in-port below `lo` nobody waited at is still not waited at after a step whose new
      entries are from `lo` on. */
  lemma PendingBelow<N, W, V>(g0: B.HyperGraph<N, W>, in0: seq<(nat, V)>, g: B.HyperGraph<N, W>, ins: seq<(nat, V)>,
                              p: nat, lo: nat)
    requires Progress(g0, in0, g, ins, -1, lo) && NotPending(in0, p) && p < lo
    ensures NotPending(ins, p)
  {
    forall k | 0 <= k < |ins| ensures ins[k].0 != p {
      if k < |in0| {
        assert ins[k] == ins[..|in0|][k];
      }
    }
  }

  /** An argument or value is wired to in-port `port`: a variable waits there, anything
      else is linked there. */
  ghost predicate Fed<N, W, O, V, A, D>(g: B.HyperGraph<N, W>, ins: seq<(nat, V)>, value: Value<O, V, A, D>, port: nat) {
    if value.Variable? then (port, value.variable) in ins
    else B.Linked(g, port)
  }

  ghost predicate ArgWired<N, W, O, V, A, D>(g: B.HyperGraph<N, W>, ins: seq<(nat, V)>, arg: Arg<O, V, A, D>, port: nat) {
    if arg.ValueArg? then Fed(g, ins, arg.value, port)
    else B.Linked(g, port)
  }

  /** A wired port stays wired. */
  lemma FedKept<N, W, O, V, A, D>(g1: B.HyperGraph<N, W>, in1: seq<(nat, V)>, g2: B.HyperGraph<N, W>, in2: seq<(nat, V)>,
                                  value: Value<O, V, A, D>, port: nat)
    requires Grows(g1, g2) && |in1| <= |in2| && in2[..|in1|] == in1
    requires Fed(g1, in1, value, port)
    ensures Fed(g2, in2, value, port)
  {
    if value.Variable? {
      var j :| 0 <= j < |in1| && in1[j] == (port, value.variable);
      assert in2[j] == in2[..|in1|][j];
    }
  }

  /** One argument processed, from the last to the first. */
  lemma ArgStep<N, W, O, V, A, D>(g0: B.HyperGraph<N, W>, in0: seq<(nat, V)>, g1: B.HyperGraph<N, W>, in1: seq<(nat, V)>,
                                  g2: B.HyperGraph<N, W>, in2: seq<(nat, V)>, args: seq<Arg<O, V, A, D>>, base: nat, k: nat)
    requires Progress(g0, in0, g1, in1, -1, base) && EntriesFrom(in1, |in0|, base + k + 1)
    requires k < |args| && forall i :: base <= i <= base + k ==> Open(g1, i) && NotPending(in1, i)
    requires forall j :: k < j < |args| ==> ArgWired(g1, in1, args[j], base + j)
    requires Progress(g1, in1, g2, in2, base + k, |g1.inPorts|) && ArgWired(g2, in2, args[k], base + k)
    ensures Progress(g0, in0, g2, in2, -1, base) && EntriesFrom(in2, |in0|, base + k)
    ensures forall i :: base <= i < base + k ==> Open(g2, i) && NotPending(in2, i)
    ensures forall j :: k <= j < |args| ==> ArgWired(g2, in2, args[j], base + j)
  {
    assert Open(g1, base + k);
    ProgressThen(g0, in0, g1, in1, g2, in2, -1, base, base + k, |g1.inPorts|);
    forall j | k < j < |args| ensures ArgWired(g2, in2, args[j], base + j) {
      if args[j].ValueArg? {
        FedKept(g1, in1, g2, in2, args[j].value, base + j);
      }
    }
    forall i | 0 <= i < |in2| ensures (i < |in1| && in2[i] == in1[i]) || in2[i].0 == base + k || in2[i].0 >= |g1.inPorts| {
      if i < |in1| {
        assert in2[i] == in2[..|in1|][i];
      }
    }
    forall i | base <= i < base + k ensures Open(g2, i) && NotPending(in2, i) {
      assert Open(g1, i) && NotPending(in1, i);
    }
  }

  /** `add_operation` during the walk: the new operation's in-ports are open and nobody
      waits at them. */
  method StartOp<N, W, V>(g0: B.HyperGraph<N, W>, scope: Option<nat>, in0: seq<(nat, V)>, outs: map<V, nat>,
                          arity: nat, w: W, op: N, p: int)
    returns (ga: B.HyperGraph<N, W>)
    requires Consistent(g0, scope, in0, outs)
    ensures Consistent(ga, scope, in0, outs) && Progress(g0, in0, ga, in0, p, |g0.inPorts|) && OpAdded(g0, ga, arity, w, op)
    ensures p >= 0 && Open(g0, p) ==> Open(ga, p)
    ensures forall i :: |g0.inPorts| <= i < |g0.inPorts| + arity ==> Open(ga, i) && NotPending(in0, i)
  {
    ga := F.AddOperation(g0, scope, arity, [w], op);
    ProgressAdded(g0, ga, scope, in0, outs, p, |g0.inPorts|);
    forall i | |g0.inPorts| <= i < |g0.inPorts| + arity ensures Open(ga, i) && NotPending(in0, i) {
      assert ga.inPorts[i] == F.FreshInPorts(Some(|g0.arena|), arity)[i - |g0.inPorts|];
    }
  }

  /** What processing operation `op` applied to `args` did, from fragment `g0` and
      variables `o0`: it added the operation, wired every argument to its in-port, and
      linked the operation's out-port into the target in-port or bound it to the new
      variable (which was not in scope before). */
  ghost predicate OpProcessed<O, V, A, D>(g0: SyntaxHyperGraph<O, V, A, D>, o0: map<V, nat>, g: SyntaxHyperGraph<O, V, A, D>,
                                          ins: seq<(nat, V)>, outs: map<V, nat>, op: O, args: seq<Arg<O, V, A, D>>,
                                          input: ProcessInput<D>, asVar: D -> V) {
    OpAdded(g0, g, |args|, OutWeight(input), op) &&
    (forall k :: 0 <= k < |args| ==> ArgWired(g, ins, args[k], |g0.inPorts| + k)) &&
    (input.ToInPort? ==> input.port < |g.inPorts| && g.inPorts[input.port].link == Some(|g0.outPorts|)) &&
    (input.ToVariable? ==> asVar(input.def) !in o0 && outs == o0[asVar(input.def) := |g0.outPorts|])
  }

  /** The arguments are done: the operation's out-port is linked into the target in-port
      (`link`), or bound to the new variable. */
  method FinishOp<O, V, A, D>(ghost g0: SyntaxHyperGraph<O, V, A, D>, ghost in0: seq<(nat, V)>, o0: map<V, nat>,
                              ghost ga: SyntaxHyperGraph<O, V, A, D>, out: nat, gb: SyntaxHyperGraph<O, V, A, D>, inb: seq<(nat, V)>,
                              scope: Option<nat>, op: O, args: seq<Arg<O, V, A, D>>, input: ProcessInput<D>, asVar: D -> V)
    returns (gc: SyntaxHyperGraph<O, V, A, D>, oc: map<V, nat>)
    requires Consistent(g0, scope, in0, o0) && out == |g0.outPorts|
    requires input.ToInPort? ==> Open(g0, input.port) && NotPending(in0, input.port)
    requires input.ToVariable? ==> asVar(input.def) !in o0
    requires OpAdded(g0, ga, |args|, OutWeight(input), op) && Progress(g0, in0, ga, in0, Target(input), |g0.inPorts|)
    requires input.ToInPort? ==> Open(ga, input.port)
    requires Consistent(gb, scope, inb, o0) && Progress(ga, in0, gb, inb, -1, |g0.inPorts|)
    requires forall k :: 0 <= k < |args| ==> ArgWired(gb, inb, args[k], |g0.inPorts| + k)
    ensures Consistent(gc, scope, inb, oc) && Progress(g0, in0, gc, inb, Target(input), |g0.inPorts|)
    ensures OpProcessed(g0, o0, gc, inb, oc, op, args, input, asVar)
    ensures input.ToInPort? ==> oc == o0
  {
    ProgressThen(g0, in0, ga, in0, gb, inb, Target(input), |g0.inPorts|, -1, |g0.inPorts|);
    match input {
      case ToInPort(p) =>
        PendingBelow(ga, in0, gb, inb, p, |g0.inPorts|);
        gc, oc := F.Link(gb, out, p), o0;
        ProgressLinked(gb, scope, inb, o0, out, p);
        ProgressThen(g0, in0, gb, inb, gc, inb, p, |g0.inPorts|, p, |gb.inPorts|);
        assert SameNode(ga.arena[|g0.arena|], gc.arena[|g0.arena|]);
        forall k | 0 <= k < |args| ensures ArgWired(gc, inb, args[k], |g0.inPorts| + k) {
          if args[k].ValueArg? {
            FedKept(gb, inb, gc, inb, args[k].value, |g0.inPorts| + k);
          }
        }
      case ToVariable(def) =>
        gc, oc := gb, o0[asVar(def) := out];
        assert SameNode(ga.arena[|g0.arena|], gb.arena[|g0.arena|]);
    }
  }

  /** The node a processed thunk adds: the next arena slot, one bound out-port per
      parameter weighted by it, one output weighted by the thunk's address, and one
      interior graph output. */
  ghost predicate ThunkAdded<N, V, A, D>(g0: SyntaxHyperGraph<N, V, A, D>, g: SyntaxHyperGraph<N, V, A, D>,
                                         params: seq<D>, addr: A) {
    var id := |g0.arena|;
    var out := |g0.outPorts| + |params|;
    id < |g.arena| && g.arena[id].Thunk? && out < |g.outPorts| &&
    g.arena[id].bound == B.Range(|g0.outPorts|, |params|) &&
    g.arena[id].outputs == [out] && g.arena[id].graphOutputs == [|g0.inPorts|] &&
    (forall k :: 0 <= k < |params| ==> g.outPorts[|g0.outPorts| + k].weight == BoundVar(params[k])) &&
    g.outPorts[out].weight == ThunkName(addr)
  }

  /** The weights of a thunk's bound out-ports. */
  function BoundWeights<V, A, D>(params: seq<D>): (r: seq<Name<V, A, D>>)
    ensures |r| == |params| && forall k :: 0 <= k < |params| ==> r[k] == BoundVar(params[k])
  {
    seq(|params|, k requires 0 <= k < |params| => BoundVar(params[k]))
  }

  /** The variables a thunk's parameters define. */
  function Params<V, D>(params: seq<D>, asVar: D -> V): (r: seq<V>)
    ensures |r| == |params| && forall k :: 0 <= k < |params| ==> r[k] == asVar(params[k])
  {
    seq(|params|, k requires 0 <= k < |params| => asVar(params[k]))
  }

  /** The variables the bindings from the `k`-th on define. */
  ghost function DefinedFrom<O, V, A, D>(binds: seq<Bind<O, V, A, D>>, k: nat, asVar: D -> V): set<V> {
    set j | k <= j < |binds| :: asVar(binds[j].def)
  }

  lemma DefinedStep<O, V, A, D>(binds: seq<Bind<O, V, A, D>>, k: nat, asVar: D -> V)
    requires k < |binds|
    ensures DefinedFrom(binds, k, asVar) == DefinedFrom(binds, k + 1, asVar) + {asVar(binds[k].def)}
  {
  }

  /** The in-ports the scope's values feed are distinct, open and not waited at. */
  ghost predicate ScopeOpen<N, W, V>(g: B.HyperGraph<N, W>, scope: Option<nat>, ins: seq<(nat, V)>) {
    F.InScope(g, scope) &&
    var go := F.ScopeOutputs(g, scope);
    NoDup(go) && forall k :: 0 <= k < |go| ==> Open(g, go[k]) && NotPending(ins, go[k])
  }

  /** What `process_expr` leaves at the in-port a top-level value feeds: a variable in scope
      is linked to its out-port, a variable out of scope leaves it open, and an operation is
      linked. */
  ghost predicate Resolved<N, W, O, V, A, D>(g: B.HyperGraph<N, W>, outs: map<V, nat>, value: Value<O, V, A, D>, port: nat) {
    port < |g.inPorts| &&
    if value.Op? then B.Linked(g, port)
    else if value.variable in outs then g.inPorts[port].link == Some(outs[value.variable])
    else g.inPorts[port].link.None?
  }

  /** What running a thunk's body did: the fragment `start` it began from (the thunk node
      added), the variables `declared` for its parameters, the fragment `end` it finished
      with, the entries `pending` waiting before its references were resolved, the entries
      `unresolved` it left, and its variables `vars`. */
  datatype BodyRun<O, V, A, D> = BodyRun(start: SyntaxHyperGraph<O, V, A, D>, declared: map<V, nat>,
                                         end: SyntaxHyperGraph<O, V, A, D>, pending: seq<(nat, V)>,
                                         unresolved: seq<(nat, V)>, vars: map<V, nat>)

  /** A thunk's parameters declared, the `k`-th at the `k`-th bound out-port. */
  ghost predicate Declared<V(!new), D>(declared: map<V, nat>, bound: seq<nat>, params: seq<D>, asVar: D -> V) {
    |bound| == |params| &&
    (forall v :: v in declared <==> v in Params(params, asVar)) &&
    forall k :: 0 <= k < |params| ==> asVar(params[k]) in declared && declared[asVar(params[k])] == bound[k]
  }

  /** `run` ran the body of `thunk`, node `id` of `run.start`: the parameters were declared
      at the thunk's bound out-ports and the body processed in its scope, with no entries
      pending at the start. */
  ghost predicate BodyRan<O, V(!new), A, D>(id: nat, thunk: Thunk<O, V, A, D>, asVar: D -> V, run: BodyRun<O, V, A, D>) {
    F.InScope(run.start, Some(id)) &&
    Declared(run.declared, run.start.arena[id].bound, thunk.args, asVar) &&
    ExprProcessed(run.start, [], run.declared, run.end, run.unresolved, run.vars, Some(id), thunk.body, asVar, run.pending)
  }

  /** The effect of processing thunk `thunk` into in-port `p`, from fragment `g0` with
      entries `in0` and variables `outs`: the environment stayed consistent and made a step
      linking `p`, the thunk node was added and its output linked into `p`, and no reference
      to one of the thunk's parameters escaped its scope. */
  ghost predicate ThunkWired<O, V, A, D>(g0: SyntaxHyperGraph<O, V, A, D>, in0: seq<(nat, V)>, outs: map<V, nat>,
                                         g: SyntaxHyperGraph<O, V, A, D>, ins: seq<(nat, V)>, scope: Option<nat>,
                                         thunk: Thunk<O, V, A, D>, p: nat, asVar: D -> V) {
    Consistent(g, scope, ins, outs) && Progress(g0, in0, g, ins, p, |g0.inPorts|) &&
    ThunkAdded(g0, g, thunk.args, thunk.addr) &&
    p < |g.inPorts| && g.inPorts[p].link == Some(|g0.outPorts| + |thunk.args|) &&
    forall k, j :: |in0| <= k < |ins| && 0 <= j < |thunk.args| ==> ins[k].1 != asVar(thunk.args[j])
  }

  /** What processing thunk `thunk` into in-port `p` did: its effect (`ThunkWired`), made by
      running its body (`run`), appending the body's unresolved entries to `in0` and then
      linking the thunk's output into `p`. */
  ghost predicate ThunkProcessed<O, V(!new), A, D>(g0: SyntaxHyperGraph<O, V, A, D>, in0: seq<(nat, V)>, outs: map<V, nat>,
                                                   g: SyntaxHyperGraph<O, V, A, D>, ins: seq<(nat, V)>, scope: Option<nat>,
                                                   thunk: Thunk<O, V, A, D>, p: nat, asVar: D -> V, run: BodyRun<O, V, A, D>) {
    ThunkWired(g0, in0, outs, g, ins, scope, thunk, p, asVar) &&
    ThunkAdded(g0, run.start, thunk.args, thunk.addr) && BodyRan(|g0.arena|, thunk, asVar, run) &&
    F.ScopeOutputs(run.start, Some(|g0.arena|)) == [|g0.inPorts|] && ins == in0 + run.unresolved &&
    B.Wf(run.end) && |g0.outPorts| + |thunk.args| < |run.end.outPorts| && Open(run.end, p) &&
    g == F.Link(run.end, |g0.outPorts| + |thunk.args|, p)
  }

  /** `add_thunk` during the walk: the thunk's interior scope has one graph output, open
      and not waited at, and in-port `p` stays open. */
  method StartThunk<O, V, A, D>(g0: SyntaxHyperGraph<O, V, A, D>, scope: Option<nat>, in0: seq<(nat, V)>,
                                outs: map<V, nat>, params: seq<D>, addr: A, p: nat)
    returns (ga: SyntaxHyperGraph<O, V, A, D>)
    requires Consistent(g0, scope, in0, outs) && Open(g0, p)
    ensures Consistent(ga, scope, in0, outs) && Progress(g0, in0, ga, in0, p, |g0.inPorts|) && Open(ga, p)
    ensures ThunkAdded(g0, ga, params, addr)
    ensures ScopeOpen<O, Name<V, A, D>, V>(ga, Some(|g0.arena|), []) && F.ScopeOutputs(ga, Some(|g0.arena|)) == [|g0.inPorts|]
  {
    var id := |g0.arena|;
    ga := F.AddThunk(g0, scope, BoundWeights(params), [ThunkName(addr)]);
    ProgressAdded(g0, ga, scope, in0, outs, p, |g0.inPorts|);
    assert ga.inPorts[|g0.inPorts|] == F.FreshInPorts(None, 1)[0];
    forall k | 0 <= k < |params| ensures ga.outPorts[|g0.outPorts| + k].weight == BoundVar(params[k]) {
      assert ga.outPorts[ga.arena[id].bound[k]].weight == F.Weights(ga.outPorts, ga.arena[id].bound)[k];
    }
    assert ga.outPorts[ga.arena[id].outputs[0]].weight == F.Weights(ga.outPorts, ga.arena[id].outputs)[0];
  }

  /** Declaring a thunk's parameters at its bound out-ports, in the fresh environment of its
      scope `id`: it fails with `Shadowed` exactly when a parameter repeats. */
  method DeclareParams<N, W, V(==, !new), D>(g: B.HyperGraph<N, W>, id: nat, params: seq<D>, asVar: D -> V)
    returns (r: Result<(), ConvertError<V>>, outs: map<V, nat>)
    requires B.Wf(g) && F.InScope(g, Some(id)) && |g.arena[id].bound| == |params|
    ensures r.Ok? <==> NoDup(Params(params, asVar))
    ensures r.Err? ==> exists k: nat :: FirstRepeat(Params(params, asVar), k) && r.error == Shadowed(Params(params, asVar)[k])
    ensures r.Ok? ==> Consistent(g, Some(id), [], outs)
    ensures r.Ok? ==> Declared(outs, g.arena[id].bound, params, asVar)
  {
    var vars := Params(params, asVar);
    r, outs := Declare(map[], vars, g.arena[id].bound);
    assert vars[..|vars|] == vars;
    DeclaredFresh(vars, r);
    forall v | v in outs ensures outs[v] < |g.outPorts| {
      assert outs[v] in g.arena[id].bound;
    }
  }

  /** What processing a thunk's body in its own environment did, from fragment `ga` to `gb`
      in the thunk's scope `id`: the inner environment is consistent, knows every parameter,
      has resolved every reference to a variable it knows, and has closed only the scope's
      graph output and in-ports added since. */
  ghost predicate BodyProcessed<O, V, A, D>(ga: SyntaxHyperGraph<O, V, A, D>, gb: SyntaxHyperGraph<O, V, A, D>,
                                            inb: seq<(nat, V)>, innerOuts: map<V, nat>, id: nat,
                                            thunk: Thunk<O, V, A, D>, asVar: D -> V) {
    F.InScope(ga, Some(id)) &&
    Consistent(gb, Some(id), inb, innerOuts) && Grows(ga, gb) &&
    (forall q: nat :: Open(ga, q) && q !in F.ScopeOutputs(ga, Some(id)) ==> Open(gb, q)) &&
    (forall k :: 0 <= k < |inb| ==> inb[k].0 in F.ScopeOutputs(ga, Some(id)) || inb[k].0 >= |ga.inPorts|) &&
    (forall k :: 0 <= k < |inb| ==> inb[k].1 !in innerOuts) &&
    (forall j :: 0 <= j < |thunk.args| ==> asVar(thunk.args[j]) in innerOuts)
  }

  /** Linking the thunk's output into `p` after its body: the fragment grew from `g0`, kept
      the thunk node and every open in-port below `g0`'s size but `p`. */
  lemma ThunkLinked<O, V, A, D>(g0: SyntaxHyperGraph<O, V, A, D>, in0: seq<(nat, V)>, outs: map<V, nat>,
                                ga: SyntaxHyperGraph<O, V, A, D>, gb: SyntaxHyperGraph<O, V, A, D>,
                                inb: seq<(nat, V)>, innerOuts: map<V, nat>, scope: Option<nat>,
                                thunk: Thunk<O, V, A, D>, p: nat, out: nat, asVar: D -> V)
    requires Open(g0, p) && out == |g0.outPorts| + |thunk.args|
    requires Consistent(ga, scope, in0, outs) && Progress(g0, in0, ga, in0, p, |g0.inPorts|) && Open(ga, p)
    requires ThunkAdded(g0, ga, thunk.args, thunk.addr)
    requires F.InScope(ga, Some(|g0.arena|)) && F.ScopeOutputs(ga, Some(|g0.arena|)) == [|g0.inPorts|]
    requires BodyProcessed(ga, gb, inb, innerOuts, |g0.arena|, thunk, asVar)
    ensures B.Wf(gb) && out < |gb.outPorts| && Open(gb, p)
    ensures var gc := F.Link(gb, out, p);
      Grows(g0, gc) && F.InScope(gc, scope) && ThunkAdded(g0, gc, thunk.args, thunk.addr) &&
      gc.inPorts[p].link == Some(out) &&
      (forall q: nat :: Open(gb, q) && q != p ==> Open(gc, q)) &&
      (forall q: nat :: Open(g0, q) && q != p && q < |g0.inPorts| ==> Open(gc, q))
  {
    assert Open(gb, p);
    var gc := F.Link(gb, out, p);
    LinkGrows(gb, out, p);
    GrowsTrans(ga, gb, gc);
    GrowsTrans(g0, ga, gc);
    GrowsInScope(ga, gc, scope);
    assert SameNode(ga.arena[|g0.arena|], gc.arena[|g0.arena|]);
    forall q: nat | Open(g0, q) && q != p && q < |g0.inPorts| ensures Open(gc, q) {
      assert Open(ga, q);
    }
  }

  /** The interior of the thunk is done (from `ga` to `gb`, its unresolved references `inb`,
      its variables `innerOuts`): the references are passed outward and the thunk's output
      is linked into in-port `p`. */
  method FinishThunk<O, V, A, D>(ghost g0: SyntaxHyperGraph<O, V, A, D>, in0: seq<(nat, V)>, ghost outs: map<V, nat>,
                                 ghost ga: SyntaxHyperGraph<O, V, A, D>, gb: SyntaxHyperGraph<O, V, A, D>,
                                 inb: seq<(nat, V)>, ghost innerOuts: map<V, nat>, scope: Option<nat>,
                                 thunk: Thunk<O, V, A, D>, p: nat, out: nat, asVar: D -> V)
    returns (gc: SyntaxHyperGraph<O, V, A, D>, ins: seq<(nat, V)>)
    requires Consistent(g0, scope, in0, outs) && Open(g0, p) && NotPending(in0, p) && out == |g0.outPorts| + |thunk.args|
    requires Consistent(ga, scope, in0, outs) && Progress(g0, in0, ga, in0, p, |g0.inPorts|) && Open(ga, p)
    requires ThunkAdded(g0, ga, thunk.args, thunk.addr)
    requires F.InScope(ga, Some(|g0.arena|)) && F.ScopeOutputs(ga, Some(|g0.arena|)) == [|g0.inPorts|]
    requires BodyProcessed(ga, gb, inb, innerOuts, |g0.arena|, thunk, asVar)
    ensures ThunkWired(g0, in0, outs, gc, ins, scope, thunk, p, asVar)
    ensures ins == in0 + inb && B.Wf(gb) && |g0.outPorts| + |thunk.args| < |gb.outPorts| && Open(gb, p) &&
            gc == F.Link(gb, |g0.outPorts| + |thunk.args|, p)
  {
    var lo := |g0.inPorts|;
    var params := thunk.args;
    ThunkLinked(g0, in0, outs, ga, gb, inb, innerOuts, scope, thunk, p, out, asVar);
    gc := F.Link(gb, out, p);
    forall k | 0 <= k < |inb| ensures lo <= inb[k].0 {
    }
    forall k | 0 <= k < |in0| ensures in0[k].0 < lo && Open(gc, in0[k].0) {
      assert Open(g0, in0[k].0);
    }
    ins := in0 + inb;
    assert ins[..|in0|] == in0;
    forall k | 0 <= k < |ins| ensures Open(gc, ins[k].0) {
      if k >= |in0| {
        assert ins[k] == inb[k - |in0|];
      }
    }
    forall j, k | 0 <= j < k < |ins| ensures ins[j].0 != ins[k].0 {
      if k >= |in0| {
        assert ins[k] == inb[k - |in0|];
        if j >= |in0| {
          assert ins[j] == inb[j - |in0|];
        }
      }
    }
    forall k, j | |in0| <= k < |ins| && 0 <= j < |params| ensures ins[k].1 != asVar(params[j]) {
      assert ins[k] == inb[k - |in0|];
    }
  }

  /** How many pairs zipping lists of lengths `m` and `n` gives. */
  function Zipped(m: nat, n: nat): nat {
    if m <= n then m else n
  }

  /** The first loop of `process_expr` after `k` values, from fragment `g0` with entries
      `in0`: the fragment grew, every open in-port outside `go` stays open, the in-ports
      still to feed are open and not waited at, the old entries stay, every new entry waits
      at one of `go` or at an in-port added since, and value `j` feeds `go[j]` for `j < k`. */
  ghost predicate ValuesFed<N, W, O, V, A, D>(g0: B.HyperGraph<N, W>, in0: seq<(nat, V)>, g: B.HyperGraph<N, W>,
                                              ins: seq<(nat, V)>, values: seq<Value<O, V, A, D>>, go: seq<nat>, k: nat) {
    k <= |values| && k <= |go| && Grows(g0, g) &&
    (forall q: nat :: Open(g0, q) && q !in go ==> Open(g, q)) &&
    (forall j :: k <= j < |go| ==> Open(g, go[j]) && NotPending(ins, go[j])) &&
    |in0| <= |ins| && ins[..|in0|] == in0 &&
    (forall i :: |in0| <= i < |ins| ==> ins[i].0 in go || ins[i].0 >= |g0.inPorts|) &&
    (forall j :: 0 <= j < k ==> Fed(g, ins, values[j], go[j]))
  }

  lemma ValuesStart<N, W, O, V, A, D>(g: B.HyperGraph<N, W>, ins: seq<(nat, V)>, values: seq<Value<O, V, A, D>>, go: seq<nat>)
    requires forall j :: 0 <= j < |go| ==> Open(g, go[j]) && NotPending(ins, go[j])
    ensures ValuesFed(g, ins, g, ins, values, go, 0)
  {
    assert ins[..|ins|] == ins;
  }

  /** Value `k` processed into `go[k]`. */
  lemma ValuesStep<N, W, O, V, A, D>(g0: B.HyperGraph<N, W>, in0: seq<(nat, V)>, g1: B.HyperGraph<N, W>, in1: seq<(nat, V)>,
                                     g2: B.HyperGraph<N, W>, in2: seq<(nat, V)>, values: seq<Value<O, V, A, D>>,
                                     go: seq<nat>, k: nat)
    requires NoDup(go) && ValuesFed(g0, in0, g1, in1, values, go, k) && k < |values| && k < |go|
    requires Progress(g1, in1, g2, in2, go[k], |g1.inPorts|) && Fed(g2, in2, values[k], go[k])
    ensures ValuesFed(g0, in0, g2, in2, values, go, k + 1)
  {
    GrowsTrans(g0, g1, g2);
    forall q: nat | Open(g0, q) && q !in go ensures Open(g2, q) {
      assert Open(g1, q) && q != go[k];
    }
    forall j | k + 1 <= j < |go| ensures Open(g2, go[j]) && NotPending(in2, go[j]) {
      assert Open(g1, go[j]) && NotPending(in1, go[j]) && go[j] != go[k];
      forall i | 0 <= i < |in2| ensures in2[i].0 != go[j] {
        if i < |in1| {
          assert in2[i] == in2[..|in1|][i];
        }
      }
    }
    assert in2[..|in0|] == in2[..|in1|][..|in0|];
    forall i | |in0| <= i < |in2| ensures in2[i].0 in go || in2[i].0 >= |g0.inPorts| {
      if i < |in1| {
        assert in2[i] == in2[..|in1|][i];
      }
    }
    forall j | 0 <= j < k ensures Fed(g2, in2, values[j], go[j]) {
      FedKept(g1, in1, g2, in2, values[j], go[j]);
    }
  }

  /** The second loop of `process_expr` after the bindings from the `k`-th on: the
      variables are the old ones and those bindings' variables, the old ones unchanged. */
  ghost predicate BindsBound<O, V(!new), A, D>(o0: map<V, nat>, outs: map<V, nat>, binds: seq<Bind<O, V, A, D>>, k: nat,
                                         asVar: D -> V) {
    k <= |binds| &&
    (forall v :: v in outs <==> v in o0 || v in DefinedFrom(binds, k, asVar)) &&
    (forall v :: v in o0 ==> v in outs && outs[v] == o0[v])
  }

  /** Once every binding is processed, the variables in scope are the earlier ones and the
      ones the bindings define. */
  lemma BoundKeys<O, V(!new), A, D>(o0: map<V, nat>, outs: map<V, nat>, binds: seq<Bind<O, V, A, D>>, asVar: D -> V)
    requires BindsBound(o0, outs, binds, 0, asVar)
    ensures forall v :: v in outs <==> v in o0 || v in Defined(binds, asVar)
  {
  }

  /** Binding `k` bound its variable, which was not in scope, to `port`. */
  lemma BindStep<O, V(!new), A, D>(o0: map<V, nat>, o1: map<V, nat>, binds: seq<Bind<O, V, A, D>>, k: nat, asVar: D -> V, port: nat)
    requires k < |binds| && BindsBound(o0, o1, binds, k + 1, asVar) && asVar(binds[k].def) !in o1
    ensures BindsBound(o0, o1[asVar(binds[k].def) := port], binds, k, asVar)
  {
    DefinedStep(binds, k, asVar);
  }

  /** Binding `k`'s variable is fresh exactly when it is not in scope once the later
      bindings are processed. */
  lemma FreshStep<O, V(!new), A, D>(o0: map<V, nat>, o1: map<V, nat>, binds: seq<Bind<O, V, A, D>>, k: nat, asVar: D -> V)
    requires k < |binds| && BindsBound(o0, o1, binds, k + 1, asVar) && BindsFresh(binds, o0.Keys, k + 1, asVar)
    ensures BindsFresh(binds, o0.Keys, k, asVar) <==> asVar(binds[k].def) !in o1
  {
    var x := asVar(binds[k].def);
    if x in o1 && x !in o0 {
      var j :| k + 1 <= j < |binds| && asVar(binds[j].def) == x;
    }
    if x !in o1 {
      forall j | k < j < |binds| ensures asVar(binds[j].def) != x {
        assert asVar(binds[j].def) in DefinedFrom(binds, k + 1, asVar);
      }
    }
  }

  /** What processing expression `expr` in scope `scope` did, from fragment `g0` with
      entries `in0` and variables `o0`, where `pending` are the entries waiting before the
      `retain`: the environment is consistent and the fragment grew; an open in-port nobody
      waited at and outside the scope's graph outputs stays open; `pending` extends the old
      entries with entries at a graph output of the scope or at an in-port added since;
      every pending entry whose variable is in scope is linked to it, and the others are
      the entries left, in order; no entry's variable is in scope; the variables are the
      old ones (unchanged) and those the bindings define; and each value resolved the graph
      output it feeds. */
  ghost predicate ExprProcessed<O, V(!new), A, D>(g0: SyntaxHyperGraph<O, V, A, D>, in0: seq<(nat, V)>, o0: map<V, nat>,
                                            g: SyntaxHyperGraph<O, V, A, D>, ins: seq<(nat, V)>, outs: map<V, nat>,
                                            scope: Option<nat>, expr: Expr<O, V, A, D>, asVar: D -> V,
                                            pending: seq<(nat, V)>) {
    F.InScope(g0, scope) &&
    |in0| <= |pending| && pending[..|in0|] == in0 &&
    (forall k :: |in0| <= k < |pending| ==> pending[k].0 in F.ScopeOutputs(g0, scope) || pending[k].0 >= |g0.inPorts|) &&
    ins == Unresolved(pending, outs) &&
    (forall k :: 0 <= k < |pending| && pending[k].1 in outs ==>
       pending[k].0 < |g.inPorts| && g.inPorts[pending[k].0].link == Some(outs[pending[k].1])) &&
    Consistent(g, scope, ins, outs) && Grows(g0, g) &&
    (forall q: nat :: Open(g0, q) && q !in F.ScopeOutputs(g0, scope) && NotPending(in0, q) ==> Open(g, q)) &&
    (forall k :: 0 <= k < |ins| ==> ins[k] in in0 || ins[k].0 in F.ScopeOutputs(g0, scope) || ins[k].0 >= |g0.inPorts|) &&
    (forall k :: 0 <= k < |ins| ==> ins[k].1 !in outs) &&
    (forall v :: v in outs <==> v in o0 || v in Defined(expr.binds, asVar)) &&
    (forall v :: v in o0 ==> v in outs && outs[v] == o0[v]) &&
    (forall k :: 0 <= k < |expr.values| && k < |F.ScopeOutputs(g0, scope)| ==>
       Resolved(g, outs, expr.values[k], F.ScopeOutputs(g0, scope)[k]))
  }

  /** Where the entries pending before the `retain` wait. */
  lemma EntriesBefore<N, W, V>(g0: B.HyperGraph<N, W>, in0: seq<(nat, V)>, g1: B.HyperGraph<N, W>, in1: seq<(nat, V)>,
                               in2: seq<(nat, V)>, go: seq<nat>, i: nat)
    requires |in0| <= |in1| && in1[..|in0|] == in0 && |in1| <= |in2| && in2[..|in1|] == in1
    requires forall j :: |in0| <= j < |in1| ==> in1[j].0 in go || in1[j].0 >= |g0.inPorts|
    requires forall j :: |in1| <= j < |in2| ==> in2[j].0 >= |g1.inPorts|
    requires |g0.inPorts| <= |g1.inPorts| && i < |in2|
    ensures (i < |in0| && in2[i] == in0[i]) || in2[i].0 in go || in2[i].0 >= |g0.inPorts|
  {
    if i < |in1| {
      assert in2[i] == in1[i];
      if i < |in0| {
        assert in1[i] == in0[i];
      }
    }
  }

  /** After the `retain`: an open in-port outside `go` nobody waited at is still open, and
      every entry left is an old one or waits at one of `go` or at an in-port added since. */
  lemma ExprKept<N, W, O, V(!new), A, D>(g0: B.HyperGraph<N, W>, in0: seq<(nat, V)>, g1: B.HyperGraph<N, W>,
                                         in1: seq<(nat, V)>, g2: B.HyperGraph<N, W>, in2: seq<(nat, V)>,
                                         g: B.HyperGraph<N, W>, ins: seq<(nat, V)>, outs: map<V, nat>,
                                         values: seq<Value<O, V, A, D>>, go: seq<nat>, n: nat)
    requires ValuesFed(g0, in0, g1, in1, values, go, n) && Progress(g1, in1, g2, in2, -1, |g1.inPorts|)
    requires Grows(g2, g) && ins == Unresolved(in2, outs)
    requires forall q: nat :: Open(g2, q) && NotPending(in2, q) ==> Open(g, q)
    ensures Grows(g0, g)
    ensures forall q: nat :: Open(g0, q) && q !in go && NotPending(in0, q) ==> Open(g, q)
    ensures forall k :: 0 <= k < |ins| ==> ins[k] in in0 || ins[k].0 in go || ins[k].0 >= |g0.inPorts|
    ensures |in0| <= |in2| && in2[..|in0|] == in0
    ensures forall i :: |in0| <= i < |in2| ==> in2[i].0 in go || in2[i].0 >= |g0.inPorts|
  {
    GrowsTrans(g0, g1, g2);
    GrowsTrans(g0, g2, g);
    assert in2[..|in0|] == in2[..|in1|][..|in0|];
    forall q: nat | Open(g0, q) && q !in go && NotPending(in0, q) ensures Open(g, q) {
      assert Open(g1, q) && Open(g2, q);
      forall i | 0 <= i < |in2| ensures in2[i].0 != q {
        EntriesBefore(g0, in0, g1, in1, in2, go, i);
      }
    }
    forall k | 0 <= k < |ins| ensures ins[k] in in0 || ins[k].0 in go || ins[k].0 >= |g0.inPorts| {
      var i :| 0 <= i < |in2| && in2[i] == ins[k];
      EntriesBefore(g0, in0, g1, in1, in2, go, i);
    }
    forall i | |in0| <= i < |in2| ensures in2[i].0 in go || in2[i].0 >= |g0.inPorts| {
      EntriesBefore(g0, in0, g1, in1, in2, go, i);
    }
  }

  /** After the `retain`: each value resolved the in-port it feeds. */
  lemma ExprResolved<N, W, O, V(!new), A, D>(g1: B.HyperGraph<N, W>, in1: seq<(nat, V)>, g2: B.HyperGraph<N, W>,
                                             in2: seq<(nat, V)>, g: B.HyperGraph<N, W>, ins: seq<(nat, V)>,
                                             outs: map<V, nat>, values: seq<Value<O, V, A, D>>, go: seq<nat>, n: nat)
    requires n <= |values| && n <= |go| && forall k :: 0 <= k < n ==> Fed(g1, in1, values[k], go[k])
    requires Grows(g1, g2) && |in1| <= |in2| && in2[..|in1|] == in1
    requires Grows(g2, g) && ins == Unresolved(in2, outs) && forall k :: 0 <= k < |ins| ==> Open(g, ins[k].0)
    requires forall k :: 0 <= k < |in2| && in2[k].1 in outs ==> in2[k].0 < |g.inPorts| && g.inPorts[in2[k].0].link == Some(outs[in2[k].1])
    ensures forall k :: 0 <= k < n ==> Resolved(g, outs, values[k], go[k])
  {
    forall k | 0 <= k < n ensures Resolved(g, outs, values[k], go[k]) {
      var value := values[k];
      FedKept(g1, in1, g2, in2, value, go[k]);
      if value.Variable? {
        var j :| 0 <= j < |in2| && in2[j] == (go[k], value.variable);
        if value.variable !in outs {
          assert in2[j] in ins;
          var i :| 0 <= i < |ins| && ins[i] == in2[j];
        }
      }
    }
  }

  /** The `retain` ends `process_expr`: the graph outputs the values feed are resolved. */
  method FinishExpr<O, V(!new), A, D>(ghost g0: SyntaxHyperGraph<O, V, A, D>, ghost in0: seq<(nat, V)>, ghost o0: map<V, nat>,
                                      ghost g1: SyntaxHyperGraph<O, V, A, D>, ghost in1: seq<(nat, V)>,
                                      g2: SyntaxHyperGraph<O, V, A, D>, in2: seq<(nat, V)>, outs: map<V, nat>,
                                      scope: Option<nat>, expr: Expr<O, V, A, D>, asVar: D -> V)
    returns (g: SyntaxHyperGraph<O, V, A, D>, ins: seq<(nat, V)>)
    requires F.InScope(g0, scope)
    requires var go := F.ScopeOutputs(g0, scope);
      ValuesFed(g0, in0, g1, in1, expr.values, go, Zipped(|expr.values|, |go|))
    requires Consistent(g2, scope, in2, outs) && Progress(g1, in1, g2, in2, -1, |g1.inPorts|)
    requires BindsBound(o0, outs, expr.binds, 0, asVar)
    ensures ExprProcessed(g0, in0, o0, g, ins, outs, scope, expr, asVar, in2)
  {
    ghost var go := F.ScopeOutputs(g0, scope);
    ghost var n := Zipped(|expr.values|, |go|);
    g, ins := LinkUp(g2, scope, in2, outs);
    ExprKept(g0, in0, g1, in1, g2, in2, g, ins, outs, expr.values, go, n);
    GrowsInScope(g0, g, scope);
    ExprResolved(g1, in1, g2, in2, g, ins, outs, expr.values, go, n);
    BoundKeys(o0, outs, expr.binds, asVar);
  }

  // ---------------------------------------------------------------------------
  // The order of the loops

  /** The environment's state at one point of a loop. */
  datatype Snapshot<O, V, A, D> = Snapshot(fragment: SyntaxHyperGraph<O, V, A, D>, inputs: seq<(nat, V)>, outputs: map<V, nat>)

  /** Argument `arg` was processed into in-port `port`, taking the environment from `s`
      to `t`: a step that only waits at or links `port` and at in-ports created during it,
      leaving `arg` wired. */
  ghost predicate ArgDone<O, V, A, D>(s: Snapshot<O, V, A, D>, t: Snapshot<O, V, A, D>, arg: Arg<O, V, A, D>, port: nat) {
    Progress(s.fragment, s.inputs, t.fragment, t.inputs, port, |s.fragment.inPorts|) &&
    ArgWired(t.fragment, t.inputs, arg, port) && t.outputs == s.outputs
  }

  /** Binding `bind` was processed, taking the environment from `s` to `t`: its operation
      was added and bound to its variable, which was not in scope in `s`. */
  ghost predicate BindDone<O, V, A, D>(s: Snapshot<O, V, A, D>, t: Snapshot<O, V, A, D>, bind: Bind<O, V, A, D>, asVar: D -> V) {
    Progress(s.fragment, s.inputs, t.fragment, t.inputs, -1, |s.fragment.inPorts|) &&
    bind.value.Op? &&
    OpProcessed(s.fragment, s.outputs, t.fragment, t.inputs, t.outputs, bind.value.op, bind.value.args, ToVariable(bind.def), asVar)
  }

  /** Recording argument `k`'s step `t` extends the chain of steps from the last argument. */
  lemma ArgChain<O, V, A, D>(states: seq<Snapshot<O, V, A, D>>, args: seq<Arg<O, V, A, D>>, base: nat, k: nat,
                             t: Snapshot<O, V, A, D>)
    requires k < |args| && |states| == |args| + 1
    requires forall j :: k < j < |args| ==> ArgDone(states[j + 1], states[j], args[j], base + j)
    requires ArgDone(states[k + 1], t, args[k], base + k)
    ensures var s := states[k := t];
      |s| == |args| + 1 && s[k] == t && s[|args|] == states[|args|] &&
      forall j :: k <= j < |args| ==> ArgDone(s[j + 1], s[j], args[j], base + j)
  {
  }

  /** Recording binding `k`'s step `t` extends the chain of steps from the last binding. */
  lemma BindChain<O, V, A, D>(states: seq<Snapshot<O, V, A, D>>, binds: seq<Bind<O, V, A, D>>, k: nat,
                              t: Snapshot<O, V, A, D>, asVar: D -> V)
    requires k < |binds| && |states| == |binds| + 1
    requires forall j :: k < j < |binds| ==> BindDone(states[j + 1], states[j], binds[j], asVar)
    requires BindDone(states[k + 1], t, binds[k], asVar)
    ensures var s := states[k := t];
      |s| == |binds| + 1 && s[k] == t && s[|binds|] == states[|binds|] &&
      forall j :: k <= j < |binds| ==> BindDone(s[j + 1], s[j], binds[j], asVar)
  {
  }

  // ---------------------------------------------------------------------------
  // The environment

  class Environment<O, V(==, !new), A, D> {
    /** `AsVar::as_var`. */
    const asVar: D -> V
    /** The scope the fragment adds nodes to: `None` at the top level. */
    const scope: Option<nat>
    var fragment: SyntaxHyperGraph<O, V, A, D>
    /** The in-ports waiting for a variable, with that variable. */
    var inputs: seq<(nat, V)>
    /** The out-port each variable in scope names. */
    var outputs: map<V, nat>

    /** `Environment::new`. */
    constructor (asVar: D -> V, fragment: SyntaxHyperGraph<O, V, A, D>, scope: Option<nat>)
      ensures this.asVar == asVar && this.scope == scope && this.fragment == fragment
      ensures inputs == [] && outputs == map[]
    {
      this.asVar := asVar;
      this.scope := scope;
      this.fragment := fragment;
      inputs := [];
      outputs := map[];
    }

    ghost predicate Ready()
      reads this
    {
      Consistent(fragment, scope, inputs, outputs)
    }

    /** `process_value`: a variable sent to an in-port waits there; a variable bound to a
        variable is an alias, which is an error; an operation becomes a node whose
        arguments are processed from the last to the first, and whose out-port is then
        bound to the variable or linked into the in-port. */
    method ProcessValue(value: Value<O, V, A, D>, input: ProcessInput<D>) returns (r: Result<(), ConvertError<V>>)
      requires Ready()
      requires input.ToInPort? ==> Open(fragment, input.port) && NotPending(inputs, input.port)
      modifies this
      decreases value, 3
      ensures r.Err? ==> WalkError(r.error)
      ensures input.ToInPort? ==> outputs == old(outputs)
      ensures r.Ok? ==> Ready() && Progress(old(fragment), old(inputs), fragment, inputs, Target(input), |old(fragment.inPorts)|)
      ensures value.Variable? ==> fragment == old(fragment)
      ensures value.Variable? && input.ToVariable? ==> r == Err(Aliased(asVar(input.def), value.variable))
      ensures value.Variable? && input.ToInPort? ==> r.Ok? && inputs == old(inputs) + [(input.port, value.variable)]
      ensures value.Op? && r.Ok? ==>
        OpProcessed(old(fragment), old(outputs), fragment, inputs, outputs, value.op, value.args, input, asVar)
      ensures r.Ok? <==> ValueOk(value, asVar) && (input.ToVariable? ==> value.Op? && asVar(input.def) !in old(outputs))
      ensures value.Op? && input.ToVariable? && asVar(input.def) in old(outputs) && ValueOk(value, asVar) ==>
        r == Err(Shadowed(asVar(input.def)))
    {
      match value
      case Variable(v) =>
        match input {
          case ToVariable(def) =>
            r := Err(Aliased(asVar(def), v));
          case ToInPort(p) =>
            ProgressPending(fragment, scope, inputs, outputs, p, v);
            inputs := inputs + [(p, v)];
            r := Ok(());
        }
      case Op(_, _) =>
        r := ProcessOp(value, input);
    }

    /** The `Op` arm of `process_value`: the operation becomes a node whose arguments are
        processed from the last to the first, and whose out-port is then bound to the
        variable or linked into the in-port. */
    method ProcessOp(value: Value<O, V, A, D>, input: ProcessInput<D>) returns (r: Result<(), ConvertError<V>>)
      requires value.Op? && Ready()
      requires input.ToInPort? ==> Open(fragment, input.port) && NotPending(inputs, input.port)
      modifies this
      decreases value, 2
      ensures r.Err? ==> WalkError(r.error)
      ensures input.ToInPort? ==> outputs == old(outputs)
      ensures r.Ok? ==> Ready() && Progress(old(fragment), old(inputs), fragment, inputs, Target(input), |old(fragment.inPorts)|)
      ensures r.Ok? ==> OpProcessed(old(fragment), old(outputs), fragment, inputs, outputs, value.op, value.args, input, asVar)
      ensures r.Ok? <==> ValueOk(value, asVar) && (input.ToVariable? ==> asVar(input.def) !in old(outputs))
      ensures input.ToVariable? && asVar(input.def) in old(outputs) && ValueOk(value, asVar) ==>
        r == Err(Shadowed(asVar(input.def)))
    {
      var op, args := value.op, value.args;
      ghost var g0, in0 := fragment, inputs;
      var o0 := outputs;
      var base, out := |fragment.inPorts|, |fragment.outPorts|;
      fragment := StartOp(fragment, scope, inputs, outputs, |args|, OutWeight(input), op, Target(input));
      ghost var ga := fragment;
      ghost var states;
      r, states := ProcessArgs(value, base);
      if r.Err? {
        return;
      }
      if input.ToVariable? {
        var x := asVar(input.def);
        if x in outputs {
          outputs := outputs[x := out];
          return Err(Shadowed(x));
        }
      }
      fragment, outputs := FinishOp(g0, in0, o0, ga, out, fragment, inputs, scope, op, args, input, asVar);
      r := Ok(());
    }

    /** The argument loop of `process_value` for operation `value`: argument `k` feeds
        in-port `base + k`, and the arguments are processed from the last to the first. */
    method ProcessArgs(value: Value<O, V, A, D>, base: nat) returns (r: Result<(), ConvertError<V>>, ghost states: seq<Snapshot<O, V, A, D>>)
      requires value.Op? && Ready()
      requires forall i :: base <= i < base + |value.args| ==> Open(fragment, i) && NotPending(inputs, i)
      modifies this
      decreases value, 1
      ensures outputs == old(outputs)
      ensures r.Err? ==> WalkError(r.error)
      ensures r.Ok? ==> Ready() && Progress(old(fragment), old(inputs), fragment, inputs, -1, base)
      ensures r.Ok? ==> forall k :: 0 <= k < |value.args| ==> ArgWired(fragment, inputs, value.args[k], base + k)
      ensures r.Ok? <==> forall k :: 0 <= k < |value.args| ==> ArgOk(value.args[k], asVar)
      ensures r.Ok? ==> |states| == |value.args| + 1 && states[0] == Snapshot(fragment, inputs, outputs) &&
                        states[|value.args|] == Snapshot(old(fragment), old(inputs), old(outputs))
      ensures r.Ok? ==> forall j :: 0 <= j < |value.args| ==> ArgDone(states[j + 1], states[j], value.args[j], base + j)
    {
      ghost var g0, in0 := fragment, inputs;
      ProgressRefl(g0, in0, -1, base);
      ghost var start := Snapshot(g0, in0, outputs);
      states := seq(|value.args| + 1, _ => start);
      var k := |value.args|;
      while k > 0
        invariant 0 <= k <= |value.args| && ArgsDone(g0, in0, old(outputs), value, base, k, states)
      {
        k := k - 1;
        r, states := ArgTurn(value, base, k, g0, in0, old(outputs), states);
        if r.Err? {
          return;
        }
      }
      r := Ok(());
    }

    /** The arguments of `value` from the `k`-th on are processed, from fragment `g0` with
        entries `in0` and variables `o0`, the steps recorded in `states`; the in-ports of the
        earlier ones are still open. */
    ghost predicate ArgsDone(g0: SyntaxHyperGraph<O, V, A, D>, in0: seq<(nat, V)>, o0: map<V, nat>, value: Value<O, V, A, D>,
                             base: nat, k: nat, states: seq<Snapshot<O, V, A, D>>)
      requires value.Op? && k <= |value.args|
      reads this
    {
      var args := value.args;
      Ready() && outputs == o0 &&
      |states| == |args| + 1 && states[k] == Snapshot(fragment, inputs, outputs) && states[|args|] == Snapshot(g0, in0, o0) &&
      (forall j :: k <= j < |args| ==> ArgDone(states[j + 1], states[j], args[j], base + j)) &&
      Progress(g0, in0, fragment, inputs, -1, base) && EntriesFrom(inputs, |in0|, base + k) &&
      (forall i :: base <= i < base + k ==> Open(fragment, i) && NotPending(inputs, i)) &&
      (forall j :: k <= j < |args| ==> ArgWired(fragment, inputs, args[j], base + j)) &&
      (forall j :: k <= j < |args| ==> ArgOk(args[j], asVar))
    }

    /** One turn of the argument loop: argument `k` feeds in-port `base + k`. */
    method ArgTurn(value: Value<O, V, A, D>, base: nat, k: nat, ghost g0: SyntaxHyperGraph<O, V, A, D>,
                   ghost in0: seq<(nat, V)>, ghost o0: map<V, nat>, ghost states: seq<Snapshot<O, V, A, D>>)
      returns (r: Result<(), ConvertError<V>>, ghost states': seq<Snapshot<O, V, A, D>>)
      requires value.Op? && k < |value.args| && ArgsDone(g0, in0, o0, value, base, k + 1, states)
      modifies this
      decreases value, 0
      ensures outputs == old(outputs)
      ensures r.Err? ==> WalkError(r.error)
      ensures r.Ok? <==> ArgOk(value.args[k], asVar)
      ensures r.Ok? ==> ArgsDone(g0, in0, o0, value, base, k, states')
    {
      var args := value.args;
      ghost var g1, in1 := fragment, inputs;
      states' := states;
      r := ProcessArg(args[k], base + k);
      if r.Err? {
        return;
      }
      ArgStep(g0, in0, g1, in1, fragment, inputs, args, base, k);
      ArgChain(states, args, base, k, Snapshot(fragment, inputs, outputs));
      states' := states[k := Snapshot(fragment, inputs, outputs)];
    }

    /** One argument of an operation, feeding in-port `port`: a value is processed into it,
        a thunk is processed and linked into it. */
    method ProcessArg(arg: Arg<O, V, A, D>, port: nat) returns (r: Result<(), ConvertError<V>>)
      requires Ready() && Open(fragment, port) && NotPending(inputs, port)
      modifies this
      decreases arg, 0
      ensures outputs == old(outputs)
      ensures r.Err? ==> WalkError(r.error)
      ensures r.Ok? ==> Ready() && Progress(old(fragment), old(inputs), fragment, inputs, port, |old(fragment.inPorts)|)
      ensures r.Ok? ==> ArgWired(fragment, inputs, arg, port)
      ensures r.Ok? <==> ArgOk(arg, asVar)
    {
      match arg
      case ValueArg(v) =>
        r := ProcessValue(v, ToInPort(port));
        if r.Ok? && v.Variable? {
          assert inputs[|inputs| - 1] == (port, v.variable);
        }
      case ThunkArg(t) =>
        ghost var run;
        r, run := ProcessThunk(t, port);
    }

    /** `process_thunk`: a thunk must have exactly one value; it becomes a thunk node whose
        parameters are declared in a fresh environment for its scope, whose body is
        processed there, whose unresolved references are passed outward, and whose
        output is linked into in-port `p`. */
    method ProcessThunk(thunk: Thunk<O, V, A, D>, p: nat) returns (r: Result<(), ConvertError<V>>, ghost run: BodyRun<O, V, A, D>)
      requires Ready() && Open(fragment, p) && NotPending(inputs, p)
      modifies this
      decreases thunk, 3
      ensures outputs == old(outputs)
      ensures r.Err? ==> WalkError(r.error)
      ensures |thunk.body.values| != 1 ==> r == Err(ThunkOutputError) && fragment == old(fragment) && inputs == old(inputs)
      ensures |thunk.body.values| == 1 && !NoDup(Params(thunk.args, asVar)) ==>
        exists k: nat :: FirstRepeat(Params(thunk.args, asVar), k) && r == Err(Shadowed(Params(thunk.args, asVar)[k]))
      ensures r.Ok? <==> ThunkOk(thunk, asVar)
      ensures r.Ok? ==> ThunkProcessed(old(fragment), old(inputs), outputs, fragment, inputs, scope, thunk, p, asVar, run)
    {
      run := BodyRun(fragment, map[], fragment, [], [], map[]);
      if |thunk.body.values| != 1 {
        return Err(ThunkOutputError), run;
      }
      var g, ins;
      r, g, ins, run := ThunkStep(asVar, fragment, scope, inputs, outputs, thunk, p);
      if r.Ok? {
        fragment, inputs := g, ins;
      }
    }

    /** `process_expr`: the values feed the scope's graph outputs, the bindings are
        processed from the last to the first, then every pending in-port whose variable is
        now in scope is linked. */
    method ProcessExpr(expr: Expr<O, V, A, D>) returns (r: Result<(), ConvertError<V>>, ghost pending: seq<(nat, V)>)
      requires Ready() && ScopeOpen(fragment, scope, inputs)
      modifies this
      decreases expr, 2
      ensures r.Err? ==> WalkError(r.error)
      ensures r.Ok? ==> ExprProcessed(old(fragment), old(inputs), old(outputs), fragment, inputs, outputs, scope, expr, asVar, pending)
      ensures r.Ok? <==> ExprOk(expr, old(outputs).Keys, Zipped(|expr.values|, |F.ScopeOutputs(old(fragment), scope)|), asVar)
    {
      ghost var g0, in0, o0 := fragment, inputs, outputs;
      pending := [];
      var go := F.ScopeOutputs(fragment, scope);
      r := ProcessValues(expr, go);
      if r.Err? {
        return;
      }
      ghost var g1, in1 := fragment, inputs;
      ghost var states;
      r, states := ProcessBinds(expr);
      if r.Err? {
        return;
      }
      pending := inputs;
      fragment, inputs := FinishExpr(g0, in0, o0, g1, in1, fragment, inputs, outputs, scope, expr, asVar);
    }

    /** The first loop of `process_expr`: value `k` feeds in-port `go[k]`. */
    method ProcessValues(expr: Expr<O, V, A, D>, go: seq<nat>) returns (r: Result<(), ConvertError<V>>)
      requires Ready() && NoDup(go)
      requires forall k :: 0 <= k < |go| ==> Open(fragment, go[k]) && NotPending(inputs, go[k])
      modifies this
      decreases expr, 1
      ensures outputs == old(outputs)
      ensures r.Err? ==> WalkError(r.error)
      ensures r.Ok? ==> Ready()
      ensures r.Ok? ==> ValuesFed(old(fragment), old(inputs), fragment, inputs, expr.values, go, Zipped(|expr.values|, |go|))
      ensures r.Ok? <==> ValuesOk(expr, Zipped(|expr.values|, |go|), asVar)
    {
      ghost var g0, in0 := fragment, inputs;
      ValuesStart(g0, in0, expr.values, go);
      r := Ok(());
      for k := 0 to Zipped(|expr.values|, |go|)
        invariant Ready() && outputs == old(outputs)
        invariant ValuesFed(g0, in0, fragment, inputs, expr.values, go, k)
        invariant forall j :: 0 <= j < k ==> ValueOk(expr.values[j], asVar)
      {
        r := ValueTurn(expr, go, k, g0, in0);
        if r.Err? {
          return;
        }
      }
      r := Ok(());
    }

    /** One turn of the value loop: value `k` feeds in-port `go[k]`. */
    method ValueTurn(expr: Expr<O, V, A, D>, go: seq<nat>, k: nat, ghost g0: SyntaxHyperGraph<O, V, A, D>,
                     ghost in0: seq<(nat, V)>) returns (r: Result<(), ConvertError<V>>)
      requires Ready() && NoDup(go) && k < |expr.values| && k < |go|
      requires ValuesFed(g0, in0, fragment, inputs, expr.values, go, k)
      modifies this
      decreases expr, 0
      ensures outputs == old(outputs)
      ensures r.Err? ==> WalkError(r.error)
      ensures r.Ok? <==> ValueOk(expr.values[k], asVar)
      ensures r.Ok? ==> Ready() && ValuesFed(g0, in0, fragment, inputs, expr.values, go, k + 1)
    {
      ghost var g1, in1 := fragment, inputs;
      r := ProcessValue(expr.values[k], ToInPort(go[k]));
      if r.Err? {
        return;
      }
      if expr.values[k].Variable? {
        assert inputs[|inputs| - 1] == (go[k], expr.values[k].variable);
      }
      ValuesStep(g0, in0, g1, in1, fragment, inputs, expr.values, go, k);
    }

    /** The second loop of `process_expr`: each binding's value is bound to its variable,
        from the last binding to the first; `states` records the steps. */
    method ProcessBinds(expr: Expr<O, V, A, D>) returns (r: Result<(), ConvertError<V>>, ghost states: seq<Snapshot<O, V, A, D>>)
      requires Ready()
      modifies this
      decreases expr, 1
      ensures r.Err? ==> WalkError(r.error)
      ensures r.Ok? ==> Ready() && Progress(old(fragment), old(inputs), fragment, inputs, -1, |old(fragment.inPorts)|)
      ensures r.Ok? ==> BindsBound(old(outputs), outputs, expr.binds, 0, asVar)
      ensures r.Ok? <==> BindsOk(expr, old(outputs).Keys, asVar)
      ensures r.Ok? ==> |states| == |expr.binds| + 1 && states[0] == Snapshot(fragment, inputs, outputs) &&
                        states[|expr.binds|] == Snapshot(old(fragment), old(inputs), old(outputs))
      ensures r.Ok? ==> forall j :: 0 <= j < |expr.binds| ==> BindDone(states[j + 1], states[j], expr.binds[j], asVar)
    {
      ghost var g0, in0, o0 := fragment, inputs, outputs;
      ProgressRefl(g0, in0, -1, |g0.inPorts|);
      ghost var start := Snapshot(g0, in0, o0);
      states := seq(|expr.binds| + 1, _ => start);
      var k := |expr.binds|;
      while k > 0
        invariant 0 <= k <= |expr.binds| && BindsDone(g0, in0, o0, expr, k, states)
      {
        k := k - 1;
        r, states := BindTurn(expr, k, g0, in0, o0, states);
        if r.Err? {
          return;
        }
      }
      r := Ok(());
    }

    /** The bindings of `expr` from the `k`-th on are processed, from fragment `g0` with
        entries `in0` and variables `o0`, the steps recorded in `states`. */
    ghost predicate BindsDone(g0: SyntaxHyperGraph<O, V, A, D>, in0: seq<(nat, V)>, o0: map<V, nat>, expr: Expr<O, V, A, D>,
                              k: nat, states: seq<Snapshot<O, V, A, D>>)
      requires k <= |expr.binds|
      reads this
    {
      var binds := expr.binds;
      Ready() && Progress(g0, in0, fragment, inputs, -1, |g0.inPorts|) &&
      BindsBound(o0, outputs, binds, k, asVar) &&
      (forall j :: k <= j < |binds| ==> binds[j].value.Op? && ValueOk(binds[j].value, asVar)) &&
      BindsFresh(binds, o0.Keys, k, asVar) &&
      |states| == |binds| + 1 && states[k] == Snapshot(fragment, inputs, outputs) && states[|binds|] == Snapshot(g0, in0, o0) &&
      forall j :: k <= j < |binds| ==> BindDone(states[j + 1], states[j], binds[j], asVar)
    }

    /** One turn of the binding loop: binding `k` is bound to its variable. */
    method BindTurn(expr: Expr<O, V, A, D>, k: nat, ghost g0: SyntaxHyperGraph<O, V, A, D>, ghost in0: seq<(nat, V)>,
                    ghost o0: map<V, nat>, ghost states: seq<Snapshot<O, V, A, D>>)
      returns (r: Result<(), ConvertError<V>>, ghost states': seq<Snapshot<O, V, A, D>>)
      requires k < |expr.binds| && BindsDone(g0, in0, o0, expr, k + 1, states)
      modifies this
      decreases expr, 0
      ensures r.Err? ==> WalkError(r.error)
      ensures r.Ok? <==> expr.binds[k].value.Op? && ValueOk(expr.binds[k].value, asVar) && BindsFresh(expr.binds, o0.Keys, k, asVar)
      ensures r.Ok? ==> BindsDone(g0, in0, o0, expr, k, states')
    {
      var binds := expr.binds;
      ghost var g1, in1, o1 := fragment, inputs, outputs;
      states' := states;
      FreshStep(o0, o1, binds, k, asVar);
      r := ProcessValue(binds[k].value, ToVariable(binds[k].def));
      if r.Err? {
        return;
      }
      BindStep(o0, o1, binds, k, asVar, |g1.outPorts|);
      ProgressThen(g0, in0, g1, in1, fragment, inputs, -1, |g0.inPorts|, -1, |g1.inPorts|);
      BindChain(states, binds, k, Snapshot(fragment, inputs, outputs), asVar);
      states' := states[k := Snapshot(fragment, inputs, outputs)];
    }
  }

  /** The closure `process_thunk` runs in the thunk's scope `id` of fragment `ga`: a fresh
      environment declares the thunk's parameters at its bound out-ports and processes its
      body; the resulting fragment, unresolved references and variables are handed back. */
  method RunBody<O, V(==, !new), A, D>(asVar: D -> V, ga: SyntaxHyperGraph<O, V, A, D>, id: nat, thunk: Thunk<O, V, A, D>)
    returns (r: Result<(), ConvertError<V>>, gb: SyntaxHyperGraph<O, V, A, D>, inb: seq<(nat, V)>, ghost run: BodyRun<O, V, A, D>)
    requires B.Wf(ga) && ScopeOpen<O, Name<V, A, D>, V>(ga, Some(id), []) && |ga.arena[id].bound| == |thunk.args|
    decreases thunk, 1
    ensures r.Err? ==> WalkError(r.error)
    ensures !NoDup(Params(thunk.args, asVar)) ==>
      exists k: nat :: FirstRepeat(Params(thunk.args, asVar), k) && r == Err(Shadowed(Params(thunk.args, asVar)[k]))
    ensures r.Ok? <==> (NoDup(Params(thunk.args, asVar)) &&
                        ExprOk(thunk.body, (set v | v in Params(thunk.args, asVar)), Zipped(|thunk.body.values|, |F.ScopeOutputs(ga, Some(id))|), asVar))
    ensures r.Ok? ==> run.start == ga && run.end == gb && run.unresolved == inb
    ensures r.Ok? ==> BodyProcessed(ga, gb, inb, run.vars, id, thunk, asVar) && BodyRan(id, thunk, asVar, run)
  {
    var inner := new Environment(asVar, ga, Some(id));
    var declared, outs := DeclareParams(ga, id, thunk.args, asVar);
    inner.outputs := outs;
    run := BodyRun(ga, outs, ga, [], [], outs);
    if declared.Err? {
      return declared, ga, [], run;
    }
    assert outs.Keys == set v | v in Params(thunk.args, asVar);
    ghost var pending;
    r, pending := inner.ProcessExpr(thunk.body);
    gb, inb := inner.fragment, inner.inputs;
    run := BodyRun(ga, outs, gb, pending, inb, inner.outputs);
  }

  /** The work of `process_thunk` on fragment `g0` with entries `in0` and variables `outs`:
      add the thunk node, run its body in the thunk's scope, pass its unresolved
      references outward and link its output into in-port `p`. */
  method ThunkStep<O, V(==, !new), A, D>(asVar: D -> V, g0: SyntaxHyperGraph<O, V, A, D>, scope: Option<nat>,
                                          in0: seq<(nat, V)>, outs: map<V, nat>, thunk: Thunk<O, V, A, D>, p: nat)
    returns (r: Result<(), ConvertError<V>>, gc: SyntaxHyperGraph<O, V, A, D>, ins: seq<(nat, V)>, ghost run: BodyRun<O, V, A, D>)
    requires Consistent(g0, scope, in0, outs) && Open(g0, p) && NotPending(in0, p)
    decreases thunk, 2
    ensures r.Err? ==> WalkError(r.error)
    ensures !NoDup(Params(thunk.args, asVar)) ==>
      exists k: nat :: FirstRepeat(Params(thunk.args, asVar), k) && r == Err(Shadowed(Params(thunk.args, asVar)[k]))
    ensures r.Ok? <==> (NoDup(Params(thunk.args, asVar)) &&
                        ExprOk(thunk.body, (set v | v in Params(thunk.args, asVar)), Zipped(|thunk.body.values|, 1), asVar))
    ensures r.Ok? ==> ThunkProcessed(g0, in0, outs, gc, ins, scope, thunk, p, asVar, run)
  {
    var id, out := |g0.arena|, |g0.outPorts| + |thunk.args|;
    var ga := StartThunk(g0, scope, in0, outs, thunk.args, thunk.addr, p);
    var gb, inb;
    r, gb, inb, run := RunBody(asVar, ga, id, thunk);
    if r.Err? {
      return r, ga, in0, run;
    }
    gc, ins := FinishThunk(g0, in0, outs, ga, gb, inb, run.vars, scope, thunk, p, out, asVar);
  }

  // ---------------------------------------------------------------------------
  // The conversion

  /** The interface a converted expression gets: one graph input per free variable, carrying
      it, and one graph output per value. */
  ghost predicate Interface<O, V, A, D>(g: SyntaxHyperGraph<O, V, A, D>, free: seq<V>, expr: Expr<O, V, A, D>) {
    |g.graphInputs| == |free| && |g.graphOutputs| == |expr.values| &&
    (forall k :: 0 <= k < |free| ==> g.graphInputs[k] < |g.outPorts| && g.outPorts[g.graphInputs[k]].weight == FreeVar(free[k])) &&
    forall k :: 0 <= k < |expr.values| ==> g.graphOutputs[k] < |g.inPorts|
  }

  /** What the walk over the whole expression leaves at the graph outputs: an operation is
      linked, a free variable returned as it is links its graph input straight through,
      a bound variable is linked, and a variable nobody binds leaves the output open. */
  ghost predicate Walked<O, V, A, D>(g: SyntaxHyperGraph<O, V, A, D>, free: seq<V>, expr: Expr<O, V, A, D>, asVar: D -> V)
    requires Interface(g, free, expr)
  {
    forall k :: 0 <= k < |expr.values| ==>
      (B.Linked(g, g.graphOutputs[k]) <==> Bound(expr.values[k], free, expr.binds, asVar)) &&
      forall j :: 0 <= j < |free| && expr.values[k] == Variable(free[j]) ==>
        g.inPorts[g.graphOutputs[k]].link == Some(g.graphInputs[j])
  }

  /** A top-level value the walk can link: an operation, or a variable that is free or bound. */
  ghost predicate Bound<O, V, A, D>(value: Value<O, V, A, D>, free: seq<V>, binds: seq<Bind<O, V, A, D>>, asVar: D -> V) {
    value.Op? || value.variable in free || value.variable in Defined(binds, asVar)
  }

  /** Value `j` is the first top-level value the walk cannot link. */
  ghost predicate FirstUnbound<O, V, A, D>(free: seq<V>, expr: Expr<O, V, A, D>, asVar: D -> V, j: nat) {
    j < |expr.values| && !Bound(expr.values[j], free, expr.binds, asVar) &&
    forall i :: 0 <= i < j ==> Bound(expr.values[i], free, expr.binds, asVar)
  }

  /** The walk of `try_from`: a fresh builder with the free variables as graph inputs, the
      free variables declared, then the whole expression processed at the top level. */
  method Walk<O, V(==, !new), A, D>(asVar: D -> V, free: seq<V>, expr: Expr<O, V, A, D>)
    returns (r: Result<(), ConvertError<V>>, g: SyntaxHyperGraph<O, V, A, D>)
    ensures B.Wf(g) && Interface(g, free, expr) && B.AllLive(g, g.graphInputs)
    ensures r.Ok? <==> NoDup(free) && ExprOk(expr, (set v | v in free), |expr.values|, asVar)
    ensures !NoDup(free) ==> exists k: nat :: FirstRepeat(free, k) && r == Err(Shadowed(free[k]))
    ensures r.Err? ==> WalkError(r.error)
    ensures r.Ok? ==> Walked(g, free, expr, asVar)
  {
    var weights := seq(|free|, k requires 0 <= k < |free| => FreeVar(free[k]));
    g := B.New(weights, |expr.values|);
    FreeLive(g);
    var declared, outs := Declare(map[], free, g.graphInputs);
    assert free[..|free|] == free;
    DeclaredFresh(free, declared);
    if declared.Err? {
      return declared, g;
    }
    r, g := WalkBody(asVar, g, outs, free, expr);
  }

  /** The top-level `process_expr` of the walk, once the free variables are declared. */
  method WalkBody<O, V(==, !new), A, D>(asVar: D -> V, g0: SyntaxHyperGraph<O, V, A, D>, outs: map<V, nat>,
                                        free: seq<V>, expr: Expr<O, V, A, D>)
    returns (r: Result<(), ConvertError<V>>, g: SyntaxHyperGraph<O, V, A, D>)
    requires Consistent(g0, None, [], outs) && ScopeOpen<O, Name<V, A, D>, V>(g0, None, [])
    requires Interface(g0, free, expr) && NoDup(g0.graphInputs) && B.AllLive(g0, g0.graphInputs)
    requires forall v :: v in outs <==> v in free
    requires forall k :: 0 <= k < |free| ==> outs[free[k]] == g0.graphInputs[k]
    ensures B.Wf(g) && Interface(g, free, expr) && B.AllLive(g, g.graphInputs)
    ensures r.Ok? <==> ExprOk(expr, (set v | v in free), |expr.values|, asVar)
    ensures r.Err? ==> WalkError(r.error) && g == g0
    ensures r.Ok? ==> Walked(g, free, expr, asVar)
  {
    assert outs.Keys == set v | v in free;
    assert Zipped(|expr.values|, |F.ScopeOutputs(g0, None)|) == |expr.values|;
    var env := new Environment(asVar, g0, None);
    env.outputs := outs;
    ghost var pending;
    r, pending := env.ProcessExpr(expr);
    if r.Err? {
      return r, g0;
    }
    g := env.fragment;
    WalkedFrom(g0, g, env.outputs, outs, env.inputs, free, expr, asVar, pending);
  }

  /** The graph inputs of a fresh builder have no links, so none dangles. */
  lemma FreeLive<N, W>(g: B.HyperGraph<N, W>)
    requires B.Wf(g) && forall k :: 0 <= k < |g.graphInputs| ==> g.graphInputs[k] < |g.outPorts| && g.outPorts[g.graphInputs[k]].links == []
    ensures B.AllLive(g, g.graphInputs)
  {
  }

  /** The graph outputs after the top-level `process_expr`, in terms of the free variables. */
  lemma WalkedFrom<O, V(!new), A, D>(g0: SyntaxHyperGraph<O, V, A, D>, g: SyntaxHyperGraph<O, V, A, D>,
                                     outs: map<V, nat>, o0: map<V, nat>, ins: seq<(nat, V)>,
                                     free: seq<V>, expr: Expr<O, V, A, D>, asVar: D -> V, pending: seq<(nat, V)>)
    requires Interface(g0, free, expr) && NoDup(g0.graphInputs)
    requires forall v :: v in o0 <==> v in free
    requires forall k :: 0 <= k < |free| ==> o0[free[k]] == g0.graphInputs[k]
    requires ExprProcessed(g0, [], o0, g, ins, outs, None, expr, asVar, pending)
    requires B.AllLive(g0, g0.graphInputs)
    ensures Interface(g, free, expr) && Walked(g, free, expr, asVar) && B.AllLive(g, g.graphInputs)
  {
    forall k | 0 <= k < |expr.values|
      ensures Resolved(g, outs, expr.values[k], g0.graphOutputs[k])
    {
    }
  }

  /** `TryFrom<&Expr>` for `SyntaxHyperGraph`: walk the expression, then `build` the result.
      `free` stands for the free variables `FreeVars` computes, in its order; `succ` for
      `flat_successors`; `walked` is the fragment the walk leaves. The conversion succeeds
      exactly when the walk accepts the expression and every check of `build` passes on
      that fragment; otherwise it reports the first repeated free variable, the error of
      the walk, or the first failing check, which is the first top-level value that is
      neither an operation nor a free or bound variable when there is one. */
  method TryFrom<O, V(==, !new), A, D>(asVar: D -> V, succ: Tarjan.Successors, free: seq<V>, expr: Expr<O, V, A, D>)
    returns (r: Result<SyntaxHyperGraph<O, V, A, D>, ConvertError<V>>, ghost walked: SyntaxHyperGraph<O, V, A, D>)
    ensures B.Wf(walked) && Interface(walked, free, expr)
    ensures r.Ok? <==> NoDup(free) && ExprOk(expr, (set v | v in free), |expr.values|, asVar) && B.Valid(walked)
    ensures !NoDup(free) ==> exists k: nat :: FirstRepeat(free, k) && r == Err(Shadowed(free[k]))
    ensures NoDup(free) && ExprOk(expr, (set v | v in free), |expr.values|, asVar) ==> Walked(walked, free, expr, asVar)
    ensures r.Err? ==> WalkError(r.error) || (r.error.HyperGraphError? && B.FirstFailure(walked, B.AllChecks(walked), r.error.error))
    ensures forall j: nat :: NoDup(free) && ExprOk(expr, (set v | v in free), |expr.values|, asVar) && FirstUnbound(free, expr, asVar, j) ==>
      r == Err(HyperGraphError(B.UninitializedInPort(walked.graphOutputs[j])))
    ensures r.Ok? ==> B.Built(succ, walked, r.value)
  {
    var ok, g := Walk(asVar, free, expr);
    walked := g;
    if ok.Err? {
      return Err(ok.error), walked;
    }
    var built := B.Build(succ, g);
    if built.Err? {
      r := Err(HyperGraphError(built.error));
      forall j: nat | FirstUnbound(free, expr, asVar, j)
        ensures r == Err(HyperGraphError(B.UninitializedInPort(walked.graphOutputs[j])))
      {
        B.FirstUnlinkedOutput(walked, j);
        B.FirstFailureUnique(walked, B.AllChecks(walked), built.error, B.UninitializedInPort(walked.graphOutputs[j]));
      }
      return;
    }
    r := Ok(built.value);
    forall j | 0 <= j < |expr.values| ensures Bound(expr.values[j], free, expr.binds, asVar) {
      assert walked.graphOutputs[j] in walked.graphOutputs;
    }
  }
}
