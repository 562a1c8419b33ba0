/** The hypergraph builder of `sd-core/src/hypergraph/builder.rs`.

    Ports and nodes live in an arena and refer to each other by index; a reference
    that the Rust code holds as a `Weak` pointer is live when it is set and points at
    an allocated slot. A thunk's interior nodes are always allocated after the thunk
    (the fragment fills a thunk after adding it), which is what makes the recursive
    traversals below terminate. */
module Builder {
  import opened Common
  import Tarjan

  /** `OutPortInternal`: the node owning the port (none for interface ports), the weight of
      the edge it produces, and the in-ports it has been linked to. */
  datatype OutPort<E> = OutPort(node: Option<nat>, weight: E, links: seq<nat>)

  /** `InPortInternal`: the node owning the port and the out-port feeding it, once linked. */
  datatype InPort = InPort(node: Option<nat>, link: Option<nat>)

  /** `NodeInternal`. A thunk has bound inputs (out-ports inside it), interior graph outputs
      (in-ports inside it) paired position-wise with its outputs, the interior node list,
      and the free-variable edges that `build` fills in. */
  datatype Node<V> =
    | Operation(inputs: seq<nat>, outputs: seq<nat>, weight: V)
    | Thunk(bound: seq<nat>, graphOutputs: seq<nat>, outputs: seq<nat>, nodes: seq<nat>,
            free: Option<seq<nat>>)

  /** `HyperGraphInternal` (the top-level node list and interface ports) together with the
      arena all nodes and ports are allocated in. A built `HyperGraph` has the same shape. */
  datatype HyperGraph<V, E> = HyperGraph(
    nodes: seq<nat>, graphInputs: seq<nat>, graphOutputs: seq<nat>,
    arena: seq<Node<V>>, outPorts: seq<OutPort<E>>, inPorts: seq<InPort>)

  /** `HyperGraphBuildError`, without the `StrongCycle` variant that `build` never raises. */
  datatype BuildError = UninitializedInPort(inPort: nat) | UninitializedOutPort(outPort: nat)

  // ---------------------------------------------------------------------------
  // Well-formedness

  /** Top-level nodes are allocated, and a thunk's interior nodes come after it. */
  ghost predicate Nested<V, E>(g: HyperGraph<V, E>) {
    (forall j :: 0 <= j < |g.nodes| ==> g.nodes[j] < |g.arena|) &&
    forall k, j :: 0 <= k < |g.arena| && g.arena[k].Thunk? && 0 <= j < |g.arena[k].nodes| ==>
      k < g.arena[k].nodes[j] < |g.arena|
  }

  /** The in-ports a node's check looks at: an operation's inputs, a thunk's interior graph outputs. */
  function InPortsOf<V>(n: Node<V>): seq<nat> {
    if n.Operation? then n.inputs else n.graphOutputs
  }

  ghost predicate PortsAllocated<V, E>(g: HyperGraph<V, E>) {
    (forall o :: o in g.graphInputs ==> o < |g.outPorts|) &&
    (forall i :: i in g.graphOutputs ==> i < |g.inPorts|) &&
    (forall k, i :: 0 <= k < |g.arena| && i in InPortsOf(g.arena[k]) ==> i < |g.inPorts|) &&
    (forall k, o :: 0 <= k < |g.arena| && o in g.arena[k].outputs ==> o < |g.outPorts|) &&
    (forall k, o :: 0 <= k < |g.arena| && g.arena[k].Thunk? && o in g.arena[k].bound ==> o < |g.outPorts|)
  }

  /** The interface ports belong to no node (the assertions `build` makes before checking them). */
  ghost predicate Interface<V, E>(g: HyperGraph<V, E>)
    requires PortsAllocated(g)
  {
    (forall o :: o in g.graphInputs ==> g.outPorts[o].node == None) &&
    (forall i :: i in g.graphOutputs ==> g.inPorts[i].node == None)
  }

  ghost predicate Wf<V, E>(g: HyperGraph<V, E>) {
    Nested(g) && PortsAllocated(g) && Interface(g)
  }

  // ---------------------------------------------------------------------------
  // Construction

  function Range(lo: nat, n: nat): (r: seq<nat>)
    ensures |r| == n && forall k :: 0 <= k < n ==> r[k] == lo + k
  {
    seq(n, k requires 0 <= k < n => lo + k)
  }

  /** `HyperGraphBuilder::new`: one unlinked interface out-port per input weight, `n`
      unlinked interface in-ports, and no nodes. */
  function New<V, E>(inputWeights: seq<E>, numberOfOutputs: nat): (g: HyperGraph<V, E>)
    ensures Wf(g)
    ensures g.nodes == [] && g.arena == []
    ensures |g.graphInputs| == |inputWeights| && NoDup(g.graphInputs)
    ensures forall k :: 0 <= k < |inputWeights| ==>
      g.graphInputs[k] < |g.outPorts| && g.outPorts[g.graphInputs[k]] == OutPort(None, inputWeights[k], [])
    ensures |g.graphOutputs| == numberOfOutputs && NoDup(g.graphOutputs)
    ensures forall k :: 0 <= k < numberOfOutputs ==>
      g.graphOutputs[k] < |g.inPorts| && g.inPorts[g.graphOutputs[k]] == InPort(None, None)
  {
    HyperGraph([], Range(0, |inputWeights|), Range(0, numberOfOutputs), [],
      seq(|inputWeights|, k requires 0 <= k < |inputWeights| => OutPort(None, inputWeights[k], [])),
      seq(numberOfOutputs, k => InPort(None, None)))
  }

  // ---------------------------------------------------------------------------
  // Port checks

  /** An in-port whose link is set and points at an allocated out-port. */
  predicate Linked<V, E>(g: HyperGraph<V, E>, i: nat) {
    i < |g.inPorts| && g.inPorts[i].link.Some? && g.inPorts[i].link.value < |g.outPorts|
  }

  /** An out-port all of whose links point at allocated in-ports. */
  predicate LinksLive<V, E>(g: HyperGraph<V, E>, o: nat) {
    o < |g.outPorts| && forall l :: l in g.outPorts[o].links ==> l < |g.inPorts|
  }

  /** `check_out_port_initialized`. */
  function CheckOutPortInitialized<V, E>(g: HyperGraph<V, E>, i: nat): (r: Result<(), BuildError>)
    ensures r.Ok? <==> Linked(g, i)
    ensures r.Err? ==> r.error == UninitializedInPort(i)
  {
    if Linked(g, i) then Ok(()) else Err(UninitializedInPort(i))
  }

  /** `check_in_ports_initialized`. */
  function CheckInPortsInitialized<V, E>(g: HyperGraph<V, E>, o: nat): (r: Result<(), BuildError>)
    ensures r.Ok? <==> LinksLive(g, o)
    ensures r.Err? ==> r.error == UninitializedOutPort(o)
  {
    if LinksLive(g, o) then Ok(()) else Err(UninitializedOutPort(o))
  }

  ghost predicate AllLinked<V, E>(g: HyperGraph<V, E>, ports: seq<nat>) {
    forall i :: i in ports ==> Linked(g, i)
  }

  ghost predicate AllLive<V, E>(g: HyperGraph<V, E>, ports: seq<nat>) {
    forall o :: o in ports ==> LinksLive(g, o)
  }

  /** The port an error names fails the check that reports that error. */
  ghost predicate Fails<V, E>(g: HyperGraph<V, E>, e: BuildError) {
    match e
    case UninitializedInPort(i) => !Linked(g, i)
    case UninitializedOutPort(o) => !LinksLive(g, o)
  }

  /** No check of the list fails. */
  ghost predicate Passes<V, E>(g: HyperGraph<V, E>, checks: seq<BuildError>) {
    forall e :: e in checks ==> !Fails(g, e)
  }

  /** `e` is the first of `checks` to fail: every check before it passes. */
  ghost predicate FirstFailure<V, E>(g: HyperGraph<V, E>, checks: seq<BuildError>, e: BuildError) {
    exists k :: 0 <= k < |checks| && checks[k] == e && Fails(g, e) &&
      forall j :: 0 <= j < k ==> !Fails(g, checks[j])
  }

  /** The checks made on a list of in-ports, in order, each named by the error it reports. */
  function InPortChecks(ports: seq<nat>): seq<BuildError> {
    seq(|ports|, k requires 0 <= k < |ports| => UninitializedInPort(ports[k]))
  }

  /** The checks made on a list of out-ports, in order. */
  function OutPortChecks(ports: seq<nat>): seq<BuildError> {
    seq(|ports|, k requires 0 <= k < |ports| => UninitializedOutPort(ports[k]))
  }

  /** A list of checks passes exactly when each of its ports is initialised. */
  lemma PassesPorts<V, E>(g: HyperGraph<V, E>, ports: seq<nat>)
    ensures Passes(g, InPortChecks(ports)) <==> AllLinked(g, ports)
    ensures Passes(g, OutPortChecks(ports)) <==> AllLive(g, ports)
  {
    var ins, outs := InPortChecks(ports), OutPortChecks(ports);
    if Passes(g, ins) {
      forall i | i in ports ensures Linked(g, i) {
        var k :| 0 <= k < |ports| && ports[k] == i;
        assert ins[k] in ins;
      }
    }
    if Passes(g, outs) {
      forall o | o in ports ensures LinksLive(g, o) {
        var k :| 0 <= k < |ports| && ports[k] == o;
        assert outs[k] in outs;
      }
    }
  }

  /** A failure first in one list of checks stays first after more checks are appended, and
      a failure first in the second of two lists is first in both when the first passes. */
  lemma FirstFailureAppend<V, E>(g: HyperGraph<V, E>, a: seq<BuildError>, b: seq<BuildError>, e: BuildError)
    ensures FirstFailure(g, a, e) ==> FirstFailure(g, a + b, e)
    ensures Passes(g, a) && FirstFailure(g, b, e) ==> FirstFailure(g, a + b, e)
  {
    if FirstFailure(g, a, e) {
      var k :| 0 <= k < |a| && a[k] == e && Fails(g, e) && forall j :: 0 <= j < k ==> !Fails(g, a[j]);
      assert (a + b)[k] == e;
    }
    if Passes(g, a) && FirstFailure(g, b, e) {
      var k :| 0 <= k < |b| && b[k] == e && Fails(g, e) && forall j :: 0 <= j < k ==> !Fails(g, b[j]);
      forall j | 0 <= j < |a| + k ensures !Fails(g, (a + b)[j]) {
        if j < |a| {
          assert (a + b)[j] in a;
        } else {
          assert (a + b)[j] == b[j - |a|];
        }
      }
      assert (a + b)[|a| + k] == e;
    }
  }

  /** A list of checks has at most one first failure. */
  lemma FirstFailureUnique<V, E>(g: HyperGraph<V, E>, checks: seq<BuildError>, e1: BuildError, e2: BuildError)
    requires FirstFailure(g, checks, e1) && FirstFailure(g, checks, e2)
    ensures e1 == e2
  {
    var k1 :| 0 <= k1 < |checks| && checks[k1] == e1 && Fails(g, e1) && forall j :: 0 <= j < k1 ==> !Fails(g, checks[j]);
    var k2 :| 0 <= k2 < |checks| && checks[k2] == e2 && Fails(g, e2) && forall j :: 0 <= j < k2 ==> !Fails(g, checks[j]);
    assert !(k1 < k2) && !(k2 < k1);
  }

  /** `for in_port in ports { check_out_port_initialized(&in_port)?; }` */
  method CheckOutPorts<V, E>(g: HyperGraph<V, E>, ports: seq<nat>) returns (r: Result<(), BuildError>)
    ensures r.Ok? <==> AllLinked(g, ports)
    ensures r.Err? ==> FirstFailure(g, InPortChecks(ports), r.error)
  {
    for k := 0 to |ports|
      invariant forall j :: 0 <= j < k ==> Linked(g, ports[j])
    {
      r := CheckOutPortInitialized(g, ports[k]);
      if r.Err? {
        assert InPortChecks(ports)[k] == r.error;
        return;
      }
    }
    return Ok(());
  }

  /** `for out_port in ports { check_in_ports_initialized(&out_port)?; }` */
  method CheckInPorts<V, E>(g: HyperGraph<V, E>, ports: seq<nat>) returns (r: Result<(), BuildError>)
    ensures r.Ok? <==> AllLive(g, ports)
    ensures r.Err? ==> FirstFailure(g, OutPortChecks(ports), r.error)
  {
    for k := 0 to |ports|
      invariant forall j :: 0 <= j < k ==> LinksLive(g, ports[j])
    {
      r := CheckInPortsInitialized(g, ports[k]);
      if r.Err? {
        assert OutPortChecks(ports)[k] == r.error;
        return;
      }
    }
    return Ok(());
  }

  /** What the `build` closures require of one node. */
  ghost predicate NodeValid<V, E>(g: HyperGraph<V, E>, n: nat)
    requires n < |g.arena|
  {
    AllLinked(g, InPortsOf(g.arena[n])) && AllLive(g, g.arena[n].outputs)
  }

  /** The checks the `build` closures make on one node: its in-ports, then its out-ports. */
  ghost function NodeChecks<V, E>(g: HyperGraph<V, E>, n: nat): seq<BuildError>
    requires n < |g.arena|
  {
    InPortChecks(InPortsOf(g.arena[n])) + OutPortChecks(g.arena[n].outputs)
  }

  /** The two closures `build` passes to its first `fold`: in-ports first, then out-ports. */
  method CheckNode<V, E>(g: HyperGraph<V, E>, n: nat) returns (r: Result<(), BuildError>)
    requires n < |g.arena|
    ensures r.Ok? <==> NodeValid(g, n)
    ensures r.Err? ==> FirstFailure(g, NodeChecks(g, n), r.error)
  {
    var ins, outs := InPortChecks(InPortsOf(g.arena[n])), OutPortChecks(g.arena[n].outputs);
    r := CheckOutPorts(g, InPortsOf(g.arena[n]));
    if r.Err? {
      FirstFailureAppend(g, ins, outs, r.error);
      return;
    }
    r := CheckInPorts(g, g.arena[n].outputs);
    if r.Err? {
      PassesPorts(g, InPortsOf(g.arena[n]));
      FirstFailureAppend(g, ins, outs, r.error);
    }
  }

  // ---------------------------------------------------------------------------
  // Traversal

  /** The lists reachable from a node list: `lo` is below every entry (the enclosing thunk). */
  ghost predicate ListIn<V, E>(g: HyperGraph<V, E>, list: seq<nat>, lo: int) {
    forall k :: 0 <= k < |list| ==> lo < list[k] < |g.arena|
  }

  /** The order in which `fold` hands nodes to its closures: an operation when it is met, a
      thunk after everything inside it. */
  ghost function FoldList<V, E>(g: HyperGraph<V, E>, list: seq<nat>, lo: int): seq<nat>
    requires Nested(g) && ListIn(g, list, lo)
    decreases |g.arena| - lo, 0, |list|
  {
    if list == [] then [] else FoldList(g, list[..|list| - 1], lo) + FoldNode(g, list[|list| - 1])
  }

  ghost function FoldNode<V, E>(g: HyperGraph<V, E>, n: nat): seq<nat>
    requires Nested(g) && n < |g.arena|
    decreases |g.arena| - n, 1, 0
  {
    if g.arena[n].Thunk? then FoldList(g, g.arena[n].nodes, n) + [n] else [n]
  }

  /** `n` is in `list` or, at any depth, inside a thunk of it. */
  ghost predicate Within<V, E>(g: HyperGraph<V, E>, list: seq<nat>, lo: int, n: nat)
    requires Nested(g) && ListIn(g, list, lo)
    decreases |g.arena| - lo
  {
    exists c :: c in list && (c == n || (g.arena[c].Thunk? && Within(g, g.arena[c].nodes, c, n)))
  }

  /** Every node `fold` visits lies below the enclosing thunk and is allocated. */
  lemma {:induction false} FoldInRange<V, E>(g: HyperGraph<V, E>, list: seq<nat>, lo: int)
    requires Nested(g) && ListIn(g, list, lo)
    ensures ListIn(g, FoldList(g, list, lo), lo)
    decreases |g.arena| - lo, |list|
  {
    if list != [] {
      var c := list[|list| - 1];
      FoldInRange(g, list[..|list| - 1], lo);
      if g.arena[c].Thunk? {
        FoldInRange(g, g.arena[c].nodes, c);
      }
    }
  }

  /** `fold` over a concatenation visits one list after the other. */
  lemma {:induction false} FoldListAppend<V, E>(g: HyperGraph<V, E>, a: seq<nat>, b: seq<nat>, lo: int)
    requires Nested(g) && ListIn(g, a, lo) && ListIn(g, b, lo)
    ensures ListIn(g, a + b, lo)
    ensures FoldList(g, a + b, lo) == FoldList(g, a, lo) + FoldList(g, b, lo)
    decreases |b|
  {
    if b == [] {
      assert a + b == a;
    } else {
      var init := b[..|b| - 1];
      FoldListAppend(g, a, init, lo);
      assert (a + b)[..|a + b| - 1] == a + init;
    }
  }

  /** One more step of the loop in `fold`. */
  lemma FoldStep<V, E>(g: HyperGraph<V, E>, list: seq<nat>, lo: int, k: nat)
    requires Nested(g) && ListIn(g, list, lo) && k < |list|
    ensures FoldList(g, list[..k + 1], lo) == FoldList(g, list[..k], lo) + FoldNode(g, list[k])
    ensures forall n :: n in FoldList(g, list[..k + 1], lo) ==> n in FoldList(g, list, lo)
  {
    assert list[..k + 1][..k] == list[..k];
    FoldListAppend(g, list[..k + 1], list[k + 1..], lo);
    assert list[..k + 1] + list[k + 1..] == list;
  }

  /** `Within` on a list splits into its prefix and its last node. */
  lemma WithinSnoc<V, E>(g: HyperGraph<V, E>, list: seq<nat>, lo: int, n: nat)
    requires Nested(g) && ListIn(g, list, lo) && list != []
    ensures Within(g, list, lo, n) <==>
      Within(g, list[..|list| - 1], lo, n) || list[|list| - 1] == n ||
      (g.arena[list[|list| - 1]].Thunk? && Within(g, g.arena[list[|list| - 1]].nodes, list[|list| - 1], n))
  {
    var init, c := list[..|list| - 1], list[|list| - 1];
    if Within(g, list, lo, n) {
      var d :| d in list && (d == n || (g.arena[d].Thunk? && Within(g, g.arena[d].nodes, d, n)));
      if d != c {
        assert d in init;
      }
    }
    if Within(g, init, lo, n) {
      var d :| d in init && (d == n || (g.arena[d].Thunk? && Within(g, g.arena[d].nodes, d, n)));
      assert d in list;
    }
    assert c in list;
  }

  /** `fold` reaches exactly the nodes inside the list, at every depth. */
  lemma {:induction false} FoldCovers<V, E>(g: HyperGraph<V, E>, list: seq<nat>, lo: int, n: nat)
    requires Nested(g) && ListIn(g, list, lo)
    ensures n in FoldList(g, list, lo) <==> Within(g, list, lo, n)
    decreases |g.arena| - lo, |list|
  {
    if list != [] {
      var init, c := list[..|list| - 1], list[|list| - 1];
      FoldCovers(g, init, lo, n);
      if g.arena[c].Thunk? {
        FoldCovers(g, g.arena[c].nodes, c, n);
      }
      assert n in FoldNode(g, c) <==> c == n || (g.arena[c].Thunk? && Within(g, g.arena[c].nodes, c, n));
      WithinSnoc(g, list, lo, n);
    }
  }

  /** In the `fold` order, every node of a thunk comes before the thunk. */
  ghost predicate InteriorFirst<V, E>(g: HyperGraph<V, E>, visits: seq<nat>) {
    forall j :: 0 <= j < |visits| && visits[j] < |g.arena| && g.arena[visits[j]].Thunk? ==>
      forall c :: c in g.arena[visits[j]].nodes ==> c in visits[..j]
  }

  lemma {:induction false} FoldInteriorFirst<V, E>(g: HyperGraph<V, E>, list: seq<nat>, lo: int)
    requires Nested(g) && ListIn(g, list, lo)
    ensures InteriorFirst(g, FoldList(g, list, lo))
    decreases |g.arena| - lo, |list|
  {
    if list != [] {
      var init, c := list[..|list| - 1], list[|list| - 1];
      var before, here := FoldList(g, init, lo), FoldNode(g, c);
      var visits := FoldList(g, list, lo);
      FoldInteriorFirst(g, init, lo);
      assert visits == before + here;
      if g.arena[c].Thunk? {
        var inner := g.arena[c].nodes;
        var sub := FoldList(g, inner, c);
        FoldInteriorFirst(g, inner, c);
        assert here == sub + [c];
        forall j | 0 <= j < |visits| && visits[j] < |g.arena| && g.arena[visits[j]].Thunk?
          ensures forall d :: d in g.arena[visits[j]].nodes ==> d in visits[..j]
        {
          if j < |before| {
            assert visits[j] == before[j] && visits[..j] == before[..j];
          } else if j < |before| + |sub| {
            var m := j - |before|;
            assert visits[j] == sub[m];
            assert visits[..j] == before + sub[..m];
          } else {
            assert visits[j] == c && visits[..j] == before + sub;
            forall d | d in inner ensures d in sub {
              FoldCovers(g, inner, c, d);
            }
          }
        }
      } else {
        forall j | 0 <= j < |visits| && visits[j] < |g.arena| && g.arena[visits[j]].Thunk?
          ensures forall d :: d in g.arena[visits[j]].nodes ==> d in visits[..j]
        {
          assert j < |before|;
          assert visits[j] == before[j] && visits[..j] == before[..j];
        }
      }
    }
  }

  // ---------------------------------------------------------------------------
  // Validation

  ghost predicate AllValid<V, E>(g: HyperGraph<V, E>, visits: seq<nat>) {
    forall n :: n in visits ==> n < |g.arena| && NodeValid(g, n)
  }

  /** The checks of the first `fold` over a visiting order, node after node. */
  ghost function ChecksOf<V, E>(g: HyperGraph<V, E>, visits: seq<nat>): seq<BuildError> {
    Flatten(seq(|visits|, k requires 0 <= k < |visits| => VisitChecks(g, visits[k])))
  }

  /** The checks one visit makes: none for a node outside the arena. */
  ghost function VisitChecks<V, E>(g: HyperGraph<V, E>, n: nat): seq<BuildError> {
    if n < |g.arena| then NodeChecks(g, n) else []
  }

  lemma ChecksOfAppend<V, E>(g: HyperGraph<V, E>, a: seq<nat>, b: seq<nat>)
    ensures ChecksOf(g, a + b) == ChecksOf(g, a) + ChecksOf(g, b)
  {
    var each := (s: seq<nat>) => seq(|s|, k requires 0 <= k < |s| => VisitChecks(g, s[k]));
    assert each(a + b) == each(a) + each(b);
    FlattenConcat(each(a), each(b));
  }

  /** The last visit's checks come last. */
  lemma ChecksOfSnoc<V, E>(g: HyperGraph<V, E>, visits: seq<nat>, n: nat)
    ensures ChecksOf(g, visits + [n]) == ChecksOf(g, visits) + VisitChecks(g, n)
    ensures ChecksOf(g, []) == []
  {
    ChecksOfAppend(g, visits, [n]);
    assert ChecksOf(g, [n]) == Flatten([VisitChecks(g, n)]);
    FlattenAppend([], VisitChecks(g, n));
  }

  /** Nodes that pass the closures pass each of their checks. */
  lemma {:induction false} ValidPasses<V, E>(g: HyperGraph<V, E>, visits: seq<nat>)
    requires AllValid(g, visits)
    ensures Passes(g, ChecksOf(g, visits))
    decreases |visits|
  {
    if visits != [] {
      var front, n := visits[..|visits| - 1], visits[|visits| - 1];
      assert n in visits && front + [n] == visits;
      ChecksOfSnoc(g, front, n);
      ValidPasses(g, front);
      PassesPorts(g, InPortsOf(g.arena[n]));
      PassesPorts(g, g.arena[n].outputs);
    }
  }

  /** The checks made below a node: a thunk's interior, then the node itself. */
  lemma ChecksOfNode<V, E>(g: HyperGraph<V, E>, n: nat)
    requires Nested(g) && n < |g.arena|
    ensures g.arena[n].Thunk? ==>
      ChecksOf(g, FoldNode(g, n)) == ChecksOf(g, FoldList(g, g.arena[n].nodes, n)) + NodeChecks(g, n)
    ensures !g.arena[n].Thunk? ==> ChecksOf(g, FoldNode(g, n)) == NodeChecks(g, n)
  {
    if g.arena[n].Thunk? {
      ChecksOfSnoc(g, FoldList(g, g.arena[n].nodes, n), n);
    } else {
      ChecksOfSnoc(g, [], n);
    }
  }

  /** The first failure found at step `k` of the loop in `fold` is the first of the whole list. */
  lemma FailedStep<V, E>(g: HyperGraph<V, E>, list: seq<nat>, lo: int, k: nat, e: BuildError)
    requires Nested(g) && ListIn(g, list, lo) && k < |list|
    requires AllValid(g, FoldList(g, list[..k], lo))
    requires FirstFailure(g, ChecksOf(g, FoldNode(g, list[k])), e)
    ensures FirstFailure(g, ChecksOf(g, FoldList(g, list, lo)), e)
  {
    var before, here := FoldList(g, list[..k], lo), FoldNode(g, list[k]);
    FoldStep(g, list, lo, k);
    FoldListAppend(g, list[..k + 1], list[k + 1..], lo);
    assert list[..k + 1] + list[k + 1..] == list;
    var after := FoldList(g, list[k + 1..], lo);
    ChecksOfAppend(g, before + here, after);
    ChecksOfAppend(g, before, here);
    ValidPasses(g, before);
    FirstFailureAppend(g, ChecksOf(g, before), ChecksOf(g, here), e);
    FirstFailureAppend(g, ChecksOf(g, before) + ChecksOf(g, here), ChecksOf(g, after), e);
  }

  /** The first `fold` of `build`, over one node list. */
  method FoldCheck<V, E>(g: HyperGraph<V, E>, list: seq<nat>, lo: int) returns (r: Result<(), BuildError>)
    requires Nested(g) && ListIn(g, list, lo)
    ensures r.Ok? <==> AllValid(g, FoldList(g, list, lo))
    ensures r.Err? ==> FirstFailure(g, ChecksOf(g, FoldList(g, list, lo)), r.error)
    decreases |g.arena| - lo, 0
  {
    for k := 0 to |list|
      invariant AllValid(g, FoldList(g, list[..k], lo))
    {
      r := CheckBelow(g, list[k]);
      if r.Err? {
        FailedStep(g, list, lo, k, r.error);
        FoldStep(g, list, lo, k);
        assert list[k] in FoldNode(g, list[k]);
        return;
      }
      FoldStep(g, list, lo, k);
    }
    assert list[..|list|] == list;
    return Ok(());
  }

  /** One node of the first `fold`: a thunk's interior first, then the node itself. */
  method CheckBelow<V, E>(g: HyperGraph<V, E>, n: nat) returns (r: Result<(), BuildError>)
    requires Nested(g) && n < |g.arena|
    ensures r.Ok? <==> AllValid(g, FoldNode(g, n))
    ensures r.Err? ==> FirstFailure(g, ChecksOf(g, FoldNode(g, n)), r.error)
    decreases |g.arena| - n, 1
  {
    ChecksOfNode(g, n);
    if g.arena[n].Thunk? {
      r := FoldCheck(g, g.arena[n].nodes, n);
      if r.Err? {
        ghost var inner := FoldList(g, g.arena[n].nodes, n);
        ghost var m :| m in inner && !(m < |g.arena| && NodeValid(g, m));
        assert m in FoldNode(g, n);
        FirstFailureAppend(g, ChecksOf(g, inner), NodeChecks(g, n), r.error);
        return;
      }
    }
    r := CheckNode(g, n);
    if r.Err? {
      assert n in FoldNode(g, n);
      if g.arena[n].Thunk? {
        ValidPasses(g, FoldList(g, g.arena[n].nodes, n));
        FirstFailureAppend(g, ChecksOf(g, FoldList(g, g.arena[n].nodes, n)), NodeChecks(g, n), r.error);
      }
    }
  }

  /** All checks `build` makes: graph inputs, graph outputs, then every node. */
  ghost predicate Valid<V, E>(g: HyperGraph<V, E>)
    requires Nested(g)
  {
    AllLive(g, g.graphInputs) && AllLinked(g, g.graphOutputs) && AllValid(g, FoldList(g, g.nodes, -1))
  }

  /** Every check `build` makes, in the order it makes them. */
  ghost function AllChecks<V, E>(g: HyperGraph<V, E>): seq<BuildError>
    requires Nested(g)
  {
    OutPortChecks(g.graphInputs) + (InPortChecks(g.graphOutputs) + ChecksOf(g, FoldList(g, g.nodes, -1)))
  }

  /** When no graph input dangles, the first graph output left unlinked is the error the
      checks of `build` report. */
  lemma FirstUnlinkedOutput<V, E>(g: HyperGraph<V, E>, j: nat)
    requires Nested(g) && AllLive(g, g.graphInputs) && j < |g.graphOutputs|
    requires forall i :: 0 <= i < j ==> Linked(g, g.graphOutputs[i])
    requires !Linked(g, g.graphOutputs[j])
    ensures FirstFailure(g, AllChecks(g), UninitializedInPort(g.graphOutputs[j]))
  {
    var inputs, outputs := OutPortChecks(g.graphInputs), InPortChecks(g.graphOutputs);
    var e := UninitializedInPort(g.graphOutputs[j]);
    PassesPorts(g, g.graphInputs);
    assert outputs[j] == e;
    FirstFailureAppend(g, outputs, ChecksOf(g, FoldList(g, g.nodes, -1)), e);
    FirstFailureAppend(g, inputs, outputs + ChecksOf(g, FoldList(g, g.nodes, -1)), e);
  }

  /** The checking half of `build`. */
  method Validate<V, E>(g: HyperGraph<V, E>) returns (r: Result<(), BuildError>)
    requires Wf(g)
    ensures r.Ok? <==> Valid(g)
    ensures r.Err? ==> FirstFailure(g, AllChecks(g), r.error)
  {
    ghost var inputs, outputs := OutPortChecks(g.graphInputs), InPortChecks(g.graphOutputs);
    ghost var fold := ChecksOf(g, FoldList(g, g.nodes, -1));
    r := CheckInPorts(g, g.graphInputs);
    if r.Err? {
      FirstFailureAppend(g, inputs, outputs + fold, r.error);
      return;
    }
    PassesPorts(g, g.graphInputs);
    r := CheckOutPorts(g, g.graphOutputs);
    if r.Err? {
      FirstFailureAppend(g, outputs, fold, r.error);
      FirstFailureAppend(g, inputs, outputs + fold, r.error);
      return;
    }
    PassesPorts(g, g.graphOutputs);
    r := FoldCheck(g, g.nodes, -1);
    if r.Err? {
      FirstFailureAppend(g, outputs, fold, r.error);
      FirstFailureAppend(g, inputs, outputs + fold, r.error);
    }
  }
  /** An in-port without a live link, anywhere in the graph, makes the checks fail. */
  lemma UnlinkedInPortFails<V, E>(g: HyperGraph<V, E>, n: nat, i: nat)
    requires Nested(g) && n < |g.arena| && Within(g, g.nodes, -1, n)
    requires i in InPortsOf(g.arena[n]) && !Linked(g, i)
    ensures !Valid(g)
  {
    FoldCovers(g, g.nodes, -1, n);
  }

  /** An out-port holding a dead link, anywhere in the graph, makes the checks fail. */
  lemma DeadLinkFails<V, E>(g: HyperGraph<V, E>, n: nat, o: nat)
    requires Nested(g) && n < |g.arena| && Within(g, g.nodes, -1, n)
    requires o in g.arena[n].outputs && !LinksLive(g, o)
    ensures !Valid(g)
  {
    FoldCovers(g, g.nodes, -1, n);
  }

  /** A fresh builder passes the checks exactly when it has no graph outputs. */
  lemma NewValidIff<V, E>(inputWeights: seq<E>, numberOfOutputs: nat)
    ensures Valid(New<V, E>(inputWeights, numberOfOutputs)) <==> numberOfOutputs == 0
  {
    var g := New<V, E>(inputWeights, numberOfOutputs);
    if numberOfOutputs > 0 {
      assert g.graphOutputs[0] in g.graphOutputs;
    }
  }

  // ---------------------------------------------------------------------------
  // Free-variable edges

  /** The out-ports linked to the given in-ports, in order; an unset link contributes nothing. */
  function Feeding(inPorts: seq<InPort>, ports: seq<nat>): seq<nat>
    decreases |ports|
  {
    if ports == [] then []
    else
      var i := ports[|ports| - 1];
      Feeding(inPorts, ports[..|ports| - 1]) +
        (if i < |inPorts| && inPorts[i].link.Some? then [inPorts[i].link.value] else [])
  }

  /** `Node::inputs` in the current state: the edges feeding an operation, and the
      free-variable edges of a thunk once they have been set. */
  function NodeInputs<V, E>(g: HyperGraph<V, E>, n: nat): seq<nat>
    requires n < |g.arena|
  {
    match g.arena[n]
    case Operation(inputs, _, _) => Feeding(g.inPorts, inputs)
    case Thunk(_, _, _, _, free) => if free.Some? then free.value else []
  }

  function InteriorInputs<V, E>(g: HyperGraph<V, E>, list: seq<nat>): seq<nat>
    requires forall k :: 0 <= k < |list| ==> list[k] < |g.arena|
    decreases |list|
  {
    if list == [] then [] else InteriorInputs(g, list[..|list| - 1]) + NodeInputs(g, list[|list| - 1])
  }

  /** Thunk `t` and its interior nodes are allocated. */
  ghost predicate ThunkIn<V, E>(g: HyperGraph<V, E>, t: nat) {
    t < |g.arena| && g.arena[t].Thunk? &&
    forall k :: 0 <= k < |g.arena[t].nodes| ==> g.arena[t].nodes[k] < |g.arena|
  }

  /** The edges `build_thunk_inputs` examines: those feeding the interior nodes, then those
      feeding the interior graph outputs. */
  function Candidates<V, E>(g: HyperGraph<V, E>, t: nat): seq<nat>
    requires ThunkIn(g, t)
  {
    InteriorInputs(g, g.arena[t].nodes) + Feeding(g.inPorts, g.arena[t].graphOutputs)
  }

  /** An edge enters the thunk from outside: its producer is not an interior node, or it has
      no producer and is not one of the thunk's bound inputs. */
  predicate Crosses<E>(outPorts: seq<OutPort<E>>, interior: seq<nat>, bound: seq<nat>, e: nat): (b: bool)
    ensures e < |outPorts| && outPorts[e].node.Some? ==> (b <==> outPorts[e].node.value !in interior)
    ensures (e >= |outPorts| || outPorts[e].node.None?) ==> (b <==> e !in bound)
  {
    if e < |outPorts| && outPorts[e].node.Some? then outPorts[e].node.value !in interior else e !in bound
  }

  function Crossing<E>(outPorts: seq<OutPort<E>>, interior: seq<nat>, bound: seq<nat>): nat -> bool {
    (e: nat) => Crosses(outPorts, interior, bound, e)
  }

  /** What `build_thunk_inputs` stores for thunk `t` in state `g`. */
  function FreeEdgesIn<V, E>(g: HyperGraph<V, E>, t: nat): seq<nat>
    requires ThunkIn(g, t)
  {
    Dedup<nat>(Filter<nat>(Candidates(g, t), Crossing(g.outPorts, g.arena[t].nodes, g.arena[t].bound)))
  }

  /** An edge feeds a node list exactly when it feeds one of its nodes. */
  lemma {:induction false} InteriorInputsMembers<V, E>(g: HyperGraph<V, E>, list: seq<nat>, e: nat)
    requires forall k :: 0 <= k < |list| ==> list[k] < |g.arena|
    ensures e in InteriorInputs(g, list) <==> exists n :: n in list && n < |g.arena| && e in NodeInputs(g, n)
    decreases |list|
  {
    if list != [] {
      var init, last := list[..|list| - 1], list[|list| - 1];
      InteriorInputsMembers(g, init, e);
      if e in InteriorInputs(g, list) && e !in NodeInputs(g, last) {
        var n :| n in init && n < |g.arena| && e in NodeInputs(g, n);
        assert n in list;
      }
      if exists n :: n in list && n < |g.arena| && e in NodeInputs(g, n) {
        var n :| n in list && n < |g.arena| && e in NodeInputs(g, n);
        if n != last {
          assert n in init;
        }
      }
    }
  }

  /** `build_thunk_inputs` walks the interior nodes in the order of a `HashSet`: whatever
      that order, the same edges are collected. */
  lemma FreeEdgesOrderFree<V, E>(g: HyperGraph<V, E>, t: nat, order: seq<nat>)
    requires ThunkIn(g, t) && forall n :: n in order <==> n in g.arena[t].nodes
    ensures var h := g.(arena := g.arena[t := g.arena[t].(nodes := order)]);
      ThunkIn(h, t) && forall e :: e in FreeEdgesIn(h, t) <==> e in FreeEdgesIn(g, t)
  {
    var h := g.(arena := g.arena[t := g.arena[t].(nodes := order)]);
    var nodes := g.arena[t].nodes;
    forall k | 0 <= k < |order| ensures order[k] < |h.arena| {
      assert order[k] in nodes;
    }
    forall n: nat | n < |g.arena| ensures NodeInputs(h, n) == NodeInputs(g, n) {
      if n == t {
        assert h.arena[t].free == g.arena[t].free;
      }
    }
    forall e ensures e in Candidates(h, t) <==> e in Candidates(g, t) {
      InteriorInputsMembers(g, nodes, e);
      InteriorInputsMembers(h, order, e);
    }
    var p, q := Crossing(g.outPorts, order, g.arena[t].bound), Crossing(g.outPorts, nodes, g.arena[t].bound);
    DedupMembers(Filter(Candidates(h, t), p));
    DedupMembers(Filter(Candidates(g, t), q));
  }

  /** The loop of `build_thunk_inputs`: the crossing candidates, each once, in first-seen
      order. */
  method CollectCrossing<E>(outPorts: seq<OutPort<E>>, interior: seq<nat>, bound: seq<nat>, candidates: seq<nat>)
    returns (inputs: seq<nat>)
    ensures inputs == Dedup<nat>(Filter<nat>(candidates, Crossing(outPorts, interior, bound)))
  {
    ghost var crossing := Crossing(outPorts, interior, bound);
    inputs := [];
    for k := 0 to |candidates|
      invariant inputs == Dedup<nat>(Filter<nat>(candidates[..k], crossing))
    {
      var edge := candidates[k];
      PrefixSnoc(candidates, k);
      DedupFilterSnoc<nat>(candidates[..k], edge, crossing);
      if edge < |outPorts| && outPorts[edge].node.Some? {
        if outPorts[edge].node.value !in interior {
          inputs := Insert<nat>(inputs, edge);
        }
      } else if edge !in bound {
        inputs := Insert<nat>(inputs, edge);
      }
    }
    assert candidates[..|candidates|] == candidates;
  }

  /** `build_thunk_inputs`: collect the crossing candidates into an ordered set and store them. */
  method BuildThunkInputs<V, E>(g: HyperGraph<V, E>, t: nat) returns (h: HyperGraph<V, E>)
    requires ThunkIn(g, t)
    ensures h == g.(arena := g.arena[t := g.arena[t].(free := Some(FreeEdgesIn(g, t)))])
  {
    var candidates := Candidates(g, t);
    var inputs := CollectCrossing(g.outPorts, g.arena[t].nodes, g.arena[t].bound, candidates);
    h := g.(arena := g.arena[t := g.arena[t].(free := Some(inputs))]);
  }

  /** The free-variable edges of thunk `t` as `build` derives them from the builder `g`: the
      interior thunks' own edges are derived first. */
  ghost function FreeEdges<V, E>(g: HyperGraph<V, E>, t: nat): seq<nat>
    requires Nested(g) && t < |g.arena| && g.arena[t].Thunk?
    decreases |g.arena| - t, 2, 0
  {
    Dedup<nat>(Filter<nat>(CandidateEdges(g, t), Crossing(g.outPorts, g.arena[t].nodes, g.arena[t].bound)))
  }

  ghost function CandidateEdges<V, E>(g: HyperGraph<V, E>, t: nat): seq<nat>
    requires Nested(g) && t < |g.arena| && g.arena[t].Thunk?
    decreases |g.arena| - t, 1, 0
  {
    InteriorInputsOf(g, g.arena[t].nodes, t) + Feeding(g.inPorts, g.arena[t].graphOutputs)
  }

  ghost function InteriorInputsOf<V, E>(g: HyperGraph<V, E>, list: seq<nat>, lo: int): seq<nat>
    requires Nested(g) && ListIn(g, list, lo)
    decreases |g.arena| - lo, 0, |list|
  {
    if list == [] then []
    else InteriorInputsOf(g, list[..|list| - 1], lo) + NodeInputsOf(g, list[|list| - 1])
  }

  ghost function NodeInputsOf<V, E>(g: HyperGraph<V, E>, n: nat): seq<nat>
    requires Nested(g) && n < |g.arena|
    decreases |g.arena| - n, 3, 0
  {
    if g.arena[n].Operation? then Feeding(g.inPorts, g.arena[n].inputs) else FreeEdges(g, n)
  }

  /** The free-variable edges are the crossing candidates, each once, in first-seen order. */
  lemma FreeEdgesFacts<V, E>(g: HyperGraph<V, E>, t: nat)
    requires Nested(g) && t < |g.arena| && g.arena[t].Thunk?
    ensures NoDup(FreeEdges(g, t))
    ensures forall e :: e in FreeEdges(g, t) <==>
      e in CandidateEdges(g, t) && Crosses(g.outPorts, g.arena[t].nodes, g.arena[t].bound, e)
    ensures FirstSeenOrder(FreeEdges(g, t), CandidateEdges(g, t))
  {
    var crossing := Crossing(g.outPorts, g.arena[t].nodes, g.arena[t].bound);
    DedupMembers(Filter(CandidateEdges(g, t), crossing));
    DedupFilterOrder(CandidateEdges(g, t), crossing);
  }

  /** `h` is `g` with the free-variable edges of the thunks in `done` filled in. */
  ghost predicate InputsAt<V, E>(g: HyperGraph<V, E>, h: HyperGraph<V, E>, done: set<nat>)
    requires Nested(g)
  {
    h == g.(arena := h.arena) && |h.arena| == |g.arena| &&
    forall k :: 0 <= k < |g.arena| ==>
      h.arena[k] == if k in done && g.arena[k].Thunk? then g.arena[k].(free := Some(FreeEdges(g, k)))
                    else g.arena[k]
  }

  lemma {:induction false} InteriorAgree<V, E>(g: HyperGraph<V, E>, h: HyperGraph<V, E>, done: set<nat>,
                                             list: seq<nat>, lo: int)
    requires Nested(g) && ListIn(g, list, lo) && InputsAt(g, h, done)
    requires forall c :: c in list && g.arena[c].Thunk? ==> c in done
    ensures InteriorInputs(h, list) == InteriorInputsOf(g, list, lo)
    decreases |list|
  {
    if list != [] {
      var c := list[|list| - 1];
      InteriorAgree(g, h, done, list[..|list| - 1], lo);
      assert c in list;
    }
  }

  /** Once the interior thunks are done, the state-based derivation gives `FreeEdges`. */
  lemma FreeEdgesAgree<V, E>(g: HyperGraph<V, E>, h: HyperGraph<V, E>, done: set<nat>, t: nat)
    requires Nested(g) && t < |g.arena| && g.arena[t].Thunk? && InputsAt(g, h, done)
    requires forall c :: c in g.arena[t].nodes && g.arena[c].Thunk? ==> c in done
    ensures ThunkIn(h, t) && h.arena[t].nodes == g.arena[t].nodes
    ensures FreeEdgesIn(h, t) == FreeEdges(g, t)
  {
    assert h.arena[t].nodes == g.arena[t].nodes && h.arena[t].bound == g.arena[t].bound;
    assert h.arena[t].graphOutputs == g.arena[t].graphOutputs;
    InteriorAgree(g, h, done, g.arena[t].nodes, t);
  }

  function Elems(s: seq<nat>): set<nat> {
    set x | x in s
  }

  /** What one step of `fold` adds to the set of visited nodes. */
  lemma ElemsStep<V, E>(g: HyperGraph<V, E>, list: seq<nat>, lo: int, k: nat)
    requires Nested(g) && ListIn(g, list, lo) && k < |list|
    ensures Elems(FoldList(g, list[..k + 1], lo)) == Elems(FoldList(g, list[..k], lo)) + Elems(FoldNode(g, list[k]))
  {
    FoldStep(g, list, lo, k);
  }

  /** The nodes `fold` visits for one node: its interior, if any, then itself. */
  lemma ElemsNode<V, E>(g: HyperGraph<V, E>, n: nat)
    requires Nested(g) && n < |g.arena|
    ensures Elems(FoldNode(g, n)) ==
      if g.arena[n].Thunk? then Elems(FoldList(g, g.arena[n].nodes, n)) + {n} else {n}
  {
  }

  /** Every thunk of a list is visited by the `fold` over that list. */
  lemma ListThunksReached<V, E>(g: HyperGraph<V, E>, list: seq<nat>, lo: int, done: set<nat>)
    requires Nested(g) && ListIn(g, list, lo)
    ensures forall c :: c in list && g.arena[c].Thunk? ==> c in done + Elems(FoldList(g, list, lo))
  {
    forall c | c in list && g.arena[c].Thunk? ensures c in FoldList(g, list, lo) {
      FoldCovers(g, list, lo, c);
    }
  }

  /** Filling in thunk `n` once its interior thunks are done extends `InputsAt` by `n`. */
  lemma InputsStep<V, E>(g: HyperGraph<V, E>, h: HyperGraph<V, E>, done: set<nat>, n: nat)
    requires Nested(g) && InputsAt(g, h, done) && n < |g.arena| && g.arena[n].Thunk?
    requires forall c :: c in g.arena[n].nodes && g.arena[c].Thunk? ==> c in done
    ensures ThunkIn(h, n) && h.arena[n].nodes == g.arena[n].nodes
    ensures InputsAt(g, h.(arena := h.arena[n := h.arena[n].(free := Some(FreeEdgesIn(h, n)))]), done + {n})
  {
    FreeEdgesAgree(g, h, done, n);
  }

  /** The second `fold` of `build`, over one node list. */
  method FoldInputs<V, E>(ghost g: HyperGraph<V, E>, h: HyperGraph<V, E>, list: seq<nat>, lo: int,
                          ghost done: set<nat>) returns (h': HyperGraph<V, E>)
    requires Nested(g) && ListIn(g, list, lo) && InputsAt(g, h, done)
    ensures InputsAt(g, h', done + Elems(FoldList(g, list, lo)))
    decreases |g.arena| - lo, 0
  {
    h' := h;
    for k := 0 to |list|
      invariant InputsAt(g, h', done + Elems(FoldList(g, list[..k], lo)))
    {
      ghost var before := done + Elems(FoldList(g, list[..k], lo));
      h' := InputsNode(g, h', list[k], before);
      ElemsStep(g, list, lo, k);
      assert before + Elems(FoldNode(g, list[k])) == done + Elems(FoldList(g, list[..k + 1], lo));
    }
    assert list[..|list|] == list;
  }

  /** One node of the second `fold`: a thunk's interior first, then its own edges. */
  method InputsNode<V, E>(ghost g: HyperGraph<V, E>, h: HyperGraph<V, E>, n: nat, ghost done: set<nat>)
    returns (h': HyperGraph<V, E>)
    requires Nested(g) && n < |g.arena| && InputsAt(g, h, done)
    ensures InputsAt(g, h', done + Elems(FoldNode(g, n)))
    decreases |g.arena| - n, 1
  {
    ElemsNode(g, n);
    h' := h;
    if h'.arena[n].Thunk? {
      var inner := h'.arena[n].nodes;
      h' := FoldInputs(g, h', inner, n, done);
      ghost var after := done + Elems(FoldList(g, inner, n));
      ListThunksReached(g, inner, n, done);
      InputsStep(g, h', after, n);
      h' := BuildThunkInputs(h', n);
    }
  }

  // ---------------------------------------------------------------------------
  // Topological sorting

  /** `flat_successors` restricted to the node list being sorted. */
  function Restrict(succ: Tarjan.Successors, members: set<nat>): Tarjan.Successors {
    (n: nat) => Filter<nat>(succ(n), (x: nat) => x in members)
  }

  /** `r` is the list `xs` as `tarjans` reorders it: every node once, each strongly connected
      component contiguous, emitted after the components it reaches, and kept in its
      original order inside. */
  ghost predicate TopSorted(succ: Tarjan.Successors, xs: seq<nat>, r: seq<nat>) {
    var within := Restrict(succ, set x | x in xs);
    NoDup(r) && (forall x :: x in r <==> x in xs) &&
    Tarjan.ReverseTopological(within, r) && Tarjan.Contiguous(within, r) && Tarjan.SccOrdered(within, r, xs)
  }

  /** `topsort_node_internals`. */
  method TopsortNodeInternals(succ: Tarjan.Successors, nodes: seq<nat>) returns (sorted: seq<nat>)
    ensures TopSorted(succ, nodes, sorted)
  {
    var members := set x: nat | x in nodes;
    var within := Restrict(succ, members);
    assert Tarjan.ClosedUnder(within, members);
    sorted := Tarjan.Tarjans(within, nodes);
  }

  /** Both graphs agree on which arena slots hold thunks. */
  ghost predicate SameKinds<V, E>(g: HyperGraph<V, E>, h: HyperGraph<V, E>) {
    |h.arena| == |g.arena| && forall k :: 0 <= k < |g.arena| ==> h.arena[k].Thunk? == g.arena[k].Thunk?
  }

  /** `h` is `start` with the interior lists of the thunks in `done` sorted; `unsorted` holds
      those lists as they were. */
  ghost predicate SortedAt<V, E>(succ: Tarjan.Successors, unsorted: HyperGraph<V, E>, start: HyperGraph<V, E>,
                                 h: HyperGraph<V, E>, done: set<nat>)
    requires SameKinds(unsorted, start)
  {
    h == start.(arena := h.arena) && |h.arena| == |start.arena| &&
    forall k :: 0 <= k < |start.arena| ==>
      if k in done && start.arena[k].Thunk? then
        h.arena[k].Thunk? && h.arena[k] == start.arena[k].(nodes := h.arena[k].nodes) &&
        TopSorted(succ, unsorted.arena[k].nodes, h.arena[k].nodes)
      else h.arena[k] == start.arena[k]
  }

  lemma SortStep<V, E>(succ: Tarjan.Successors, unsorted: HyperGraph<V, E>, start: HyperGraph<V, E>,
                       h: HyperGraph<V, E>, done: set<nat>, n: nat, sorted: seq<nat>)
    requires SameKinds(unsorted, start) && SortedAt(succ, unsorted, start, h, done)
    requires n < |unsorted.arena| && unsorted.arena[n].Thunk?
    requires TopSorted(succ, unsorted.arena[n].nodes, sorted)
    ensures h.arena[n].Thunk?
    ensures SortedAt(succ, unsorted, start, h.(arena := h.arena[n := h.arena[n].(nodes := sorted)]), done + {n})
  {
  }

  /** The third `fold` of `build`, over one node list: each thunk's interior list is sorted
      after the thunks inside it. The lists are read as they stood before sorting. */
  method FoldTopsort<V, E>(succ: Tarjan.Successors, unsorted: HyperGraph<V, E>, ghost start: HyperGraph<V, E>,
                           h: HyperGraph<V, E>, list: seq<nat>, lo: int, ghost done: set<nat>)
    returns (h': HyperGraph<V, E>)
    requires Nested(unsorted) && ListIn(unsorted, list, lo) && SameKinds(unsorted, start)
    requires SortedAt(succ, unsorted, start, h, done)
    ensures SortedAt(succ, unsorted, start, h', done + Elems(FoldList(unsorted, list, lo)))
    decreases |unsorted.arena| - lo, 0
  {
    h' := h;
    for k := 0 to |list|
      invariant SortedAt(succ, unsorted, start, h', done + Elems(FoldList(unsorted, list[..k], lo)))
    {
      ghost var before := done + Elems(FoldList(unsorted, list[..k], lo));
      h' := TopsortNode(succ, unsorted, start, h', list[k], before);
      ElemsStep(unsorted, list, lo, k);
      assert before + Elems(FoldNode(unsorted, list[k])) == done + Elems(FoldList(unsorted, list[..k + 1], lo));
    }
    assert list[..|list|] == list;
  }

  /** One node of the third `fold`: a thunk's interior first, then its own list. */
  method TopsortNode<V, E>(succ: Tarjan.Successors, unsorted: HyperGraph<V, E>, ghost start: HyperGraph<V, E>,
                           h: HyperGraph<V, E>, n: nat, ghost done: set<nat>)
    returns (h': HyperGraph<V, E>)
    requires Nested(unsorted) && n < |unsorted.arena| && SameKinds(unsorted, start)
    requires SortedAt(succ, unsorted, start, h, done)
    ensures SortedAt(succ, unsorted, start, h', done + Elems(FoldNode(unsorted, n)))
    decreases |unsorted.arena| - n, 1
  {
    ElemsNode(unsorted, n);
    h' := h;
    if unsorted.arena[n].Thunk? {
      var inner := unsorted.arena[n].nodes;
      h' := FoldTopsort(succ, unsorted, start, h', inner, n, done);
      var sorted := TopsortNodeInternals(succ, inner);
      SortStep(succ, unsorted, start, h', done + Elems(FoldList(unsorted, inner, n)), n, sorted);
      h' := h'.(arena := h'.arena[n := h'.arena[n].(nodes := sorted)]);
    }
  }

  // ---------------------------------------------------------------------------
  // build

  /** What a successful `build` returns for builder `g`: the same ports, the top-level list
      and every reached thunk's interior list sorted, and every reached thunk's free-variable
      edges filled in; nothing else changes. */
  ghost predicate Built<V, E>(succ: Tarjan.Successors, g: HyperGraph<V, E>, h: HyperGraph<V, E>)
    requires Nested(g)
  {
    h.graphInputs == g.graphInputs && h.graphOutputs == g.graphOutputs &&
    h.outPorts == g.outPorts && h.inPorts == g.inPorts &&
    TopSorted(succ, g.nodes, h.nodes) && |h.arena| == |g.arena| &&
    forall k :: 0 <= k < |g.arena| ==>
      if k in FoldList(g, g.nodes, -1) && g.arena[k].Thunk? then
        h.arena[k].Thunk? && h.arena[k] == g.arena[k].(nodes := h.arena[k].nodes, free := Some(FreeEdges(g, k))) &&
        TopSorted(succ, g.arena[k].nodes, h.arena[k].nodes)
      else h.arena[k] == g.arena[k]
  }

  /** Lists with the same members reach the same nodes. */
  lemma WithinMembers<V, E>(g: HyperGraph<V, E>, a: seq<nat>, b: seq<nat>, lo: int, n: nat)
    requires Nested(g) && ListIn(g, a, lo) && ListIn(g, b, lo) && forall x :: x in a <==> x in b
    ensures Within(g, a, lo, n) <==> Within(g, b, lo, n)
  {
    if Within(g, a, lo, n) {
      var c :| c in a && (c == n || (g.arena[c].Thunk? && Within(g, g.arena[c].nodes, c, n)));
      assert c in b;
    }
    if Within(g, b, lo, n) {
      var c :| c in b && (c == n || (g.arena[c].Thunk? && Within(g, g.arena[c].nodes, c, n)));
      assert c in a;
    }
  }

  /** Sorting the top-level list does not change which nodes `fold` reaches. */
  lemma SortedTopReach<V, E>(g: HyperGraph<V, E>, top: seq<nat>)
    requires Nested(g) && forall x :: x in top <==> x in g.nodes
    ensures ListIn(g, top, -1)
    ensures Elems(FoldList(g, top, -1)) == Elems(FoldList(g, g.nodes, -1))
  {
    forall k | 0 <= k < |top| ensures -1 < top[k] < |g.arena| {
      assert top[k] in g.nodes;
    }
    forall n ensures n in FoldList(g, top, -1) <==> n in FoldList(g, g.nodes, -1) {
      FoldCovers(g, top, -1, n);
      FoldCovers(g, g.nodes, -1, n);
      WithinMembers(g, top, g.nodes, -1, n);
    }
  }

  /** `build`: check every port, derive the free-variable edges, then sort the node lists.
      `succ` stands for `flat_successors`. */
  method Build<V, E>(succ: Tarjan.Successors, g: HyperGraph<V, E>) returns (r: Result<HyperGraph<V, E>, BuildError>)
    requires Wf(g)
    ensures r.Ok? <==> Valid(g)
    ensures r.Err? ==> FirstFailure(g, AllChecks(g), r.error)
    ensures r.Ok? ==> Built(succ, g, r.value)
  {
    var checked := Validate(g);
    if checked.Err? {
      return Err(checked.error);
    }
    var h := FoldInputs(g, g, g.nodes, -1, {});
    ghost var reached := Elems(FoldList(g, g.nodes, -1));
    assert reached == {} + reached;
    var top := TopsortNodeInternals(succ, h.nodes);
    h := h.(nodes := top);
    ghost var start := h;
    SortedTopReach(g, top);
    h := FoldTopsort(succ, g, start, h, top, -1, {});
    assert {} + Elems(FoldList(g, top, -1)) == reached;
    forall k | 0 <= k < |g.arena|
      ensures if k in FoldList(g, g.nodes, -1) && g.arena[k].Thunk? then
          h.arena[k].Thunk? && h.arena[k] == g.arena[k].(nodes := h.arena[k].nodes, free := Some(FreeEdges(g, k))) &&
          TopSorted(succ, g.arena[k].nodes, h.arena[k].nodes)
        else h.arena[k] == g.arena[k]
    {
      assert k in reached <==> k in FoldList(g, g.nodes, -1);
    }
    return Ok(h);
  }
}
