/** The fragment operations the builder offers (`add_operation`, `add_thunk`, `in_thunk`,
    `link`), modelled on the arena of `Builder`, and `Thunk::clone_thunk` of
    `sd-core/src/hypergraph/builder.rs`, which copies a thunk of a built hypergraph into a
    fragment.

    A fragment is a builder together with a scope: `None` for the top level, `Some(t)`
    inside thunk `t` (what `in_thunk` hands to its closure). New nodes are appended to the
    scope's node list and take the next arena slot, so a thunk's interior nodes always come
    after it. */
module Fragment {
  import opened Common
  import opened Builder

  /** The scope names the top level or an allocated thunk. */
  ghost predicate InScope<V, E>(g: HyperGraph<V, E>, scope: Option<nat>) {
    scope.None? || (scope.value < |g.arena| && g.arena[scope.value].Thunk?)
  }

  /** The node list of the scope. */
  function ScopeNodes<V, E>(g: HyperGraph<V, E>, scope: Option<nat>): seq<nat>
    requires InScope(g, scope)
  {
    if scope.None? then g.nodes else g.arena[scope.value].nodes
  }

  /** `Fragment::graph_outputs`: the in-ports the scope's values feed. */
  function ScopeOutputs<V, E>(g: HyperGraph<V, E>, scope: Option<nat>): seq<nat>
    requires InScope(g, scope)
  {
    if scope.None? then g.graphOutputs else g.arena[scope.value].graphOutputs
  }

  /** The scope's node list with `id` appended. */
  function AppendToScope<V, E>(g: HyperGraph<V, E>, scope: Option<nat>, id: nat): (h: HyperGraph<V, E>)
    requires InScope(g, scope)
  {
    if scope.None? then g.(nodes := g.nodes + [id])
    else g.(arena := g.arena[scope.value := g.arena[scope.value].(nodes := g.arena[scope.value].nodes + [id])])
  }

  function FreshOutPorts<E>(owner: Option<nat>, weights: seq<E>): seq<OutPort<E>> {
    seq(|weights|, k requires 0 <= k < |weights| => OutPort(owner, weights[k], []))
  }

  function FreshInPorts(owner: Option<nat>, n: nat): seq<InPort> {
    seq(n, k => InPort(owner, None))
  }

  /** `h` is `g` with more nodes and ports: the old ports keep their records, and every old
      node except the scope's thunk keeps its record. */
  ghost predicate Extends<V, E>(g: HyperGraph<V, E>, h: HyperGraph<V, E>, scope: Option<nat>) {
    |g.arena| <= |h.arena| &&
    |g.outPorts| <= |h.outPorts| && h.outPorts[..|g.outPorts|] == g.outPorts &&
    |g.inPorts| <= |h.inPorts| && h.inPorts[..|g.inPorts|] == g.inPorts &&
    h.graphInputs == g.graphInputs && h.graphOutputs == g.graphOutputs &&
    (scope.Some? ==> h.nodes == g.nodes) &&
    forall k :: 0 <= k < |g.arena| && Some(k) != scope ==> h.arena[k] == g.arena[k]
  }

  /** The scope's thunk keeps everything but its node list. */
  ghost predicate ScopeKept<V, E>(g: HyperGraph<V, E>, h: HyperGraph<V, E>, scope: Option<nat>)
    requires InScope(g, scope)
  {
    InScope(h, scope) &&
    (scope.Some? ==> h.arena[scope.value] == g.arena[scope.value].(nodes := h.arena[scope.value].nodes))
  }

  /** The arena and port lists with `node` and its new ports allocated at the end. */
  function Grow<V, E>(g: HyperGraph<V, E>, node: Node<V>, newIns: seq<InPort>, newOuts: seq<OutPort<E>>)
    : HyperGraph<V, E>
  {
    g.(arena := g.arena + [node], inPorts := g.inPorts + newIns, outPorts := g.outPorts + newOuts)
  }

  /** What a node may refer to when it is allocated: ports that exist afterwards, and (for a
      thunk) no interior nodes yet. */
  ghost predicate Allocatable<V, E>(g: HyperGraph<V, E>, node: Node<V>, newIns: seq<InPort>, newOuts: seq<OutPort<E>>) {
    (node.Thunk? ==> node.nodes == [] && forall o :: o in node.bound ==> o < |g.outPorts| + |newOuts|) &&
    (forall i :: i in InPortsOf(node) ==> i < |g.inPorts| + |newIns|) &&
    (forall o :: o in node.outputs ==> o < |g.outPorts| + |newOuts|)
  }

  lemma GrowNested<V, E>(g: HyperGraph<V, E>, scope: Option<nat>, node: Node<V>, newIns: seq<InPort>, newOuts: seq<OutPort<E>>)
    requires Wf(g) && InScope(g, scope) && Allocatable(g, node, newIns, newOuts)
    ensures Nested(AppendToScope(Grow(g, node, newIns, newOuts), scope, |g.arena|))
  {
    var id := |g.arena|;
    var h := AppendToScope(Grow(g, node, newIns, newOuts), scope, id);
    forall k, j | 0 <= k < |h.arena| && h.arena[k].Thunk? && 0 <= j < |h.arena[k].nodes|
      ensures k < h.arena[k].nodes[j] < |h.arena|
    {
      if Some(k) != scope {
        assert k < id;
        assert h.arena[k] == g.arena[k];
      } else if j < |g.arena[k].nodes| {
        assert h.arena[k].nodes[j] == g.arena[k].nodes[j];
      }
    }
  }

  lemma GrowPorts<V, E>(g: HyperGraph<V, E>, scope: Option<nat>, node: Node<V>, newIns: seq<InPort>, newOuts: seq<OutPort<E>>)
    requires Wf(g) && InScope(g, scope) && Allocatable(g, node, newIns, newOuts)
    ensures PortsAllocated(AppendToScope(Grow(g, node, newIns, newOuts), scope, |g.arena|))
  {
    var id := |g.arena|;
    var h := AppendToScope(Grow(g, node, newIns, newOuts), scope, id);
    forall k, i | 0 <= k < |h.arena| && i in InPortsOf(h.arena[k]) ensures i < |h.inPorts| {
      if k < id {
        assert InPortsOf(h.arena[k]) == InPortsOf(g.arena[k]);
      }
    }
    forall k, o | 0 <= k < |h.arena| && o in h.arena[k].outputs ensures o < |h.outPorts| {
      if k < id {
        assert h.arena[k].outputs == g.arena[k].outputs;
      }
    }
    forall k, o | 0 <= k < |h.arena| && h.arena[k].Thunk? && o in h.arena[k].bound ensures o < |h.outPorts| {
      if k < id {
        assert h.arena[k].bound == g.arena[k].bound;
      }
    }
  }

  /** Allocates `node` in the next arena slot, appends the new ports, and appends the node
      to the scope. */
  function Allocate<V, E>(g: HyperGraph<V, E>, scope: Option<nat>, node: Node<V>,
                          newIns: seq<InPort>, newOuts: seq<OutPort<E>>): (h: HyperGraph<V, E>)
    requires Wf(g) && InScope(g, scope) && Allocatable(g, node, newIns, newOuts)
    ensures Wf(h) && Extends(g, h, scope) && ScopeKept(g, h, scope)
    ensures |h.arena| == |g.arena| + 1 && h.arena[|g.arena|] == node
    ensures h.inPorts == g.inPorts + newIns && h.outPorts == g.outPorts + newOuts
    ensures ScopeNodes(h, scope) == ScopeNodes(g, scope) + [|g.arena|]
  {
    var grown := Grow(g, node, newIns, newOuts);
    assert grown.inPorts[..|g.inPorts|] == g.inPorts && grown.outPorts[..|g.outPorts|] == g.outPorts;
    GrowNested(g, scope, node, newIns, newOuts);
    GrowPorts(g, scope, node, newIns, newOuts);
    AppendToScope(grown, scope, |g.arena|)
  }

  /** `add_operation`: a new operation with `arity` fresh in-ports, one fresh out-port per
      weight, and the given weight, appended to the scope. */
  function AddOperation<V, E>(g: HyperGraph<V, E>, scope: Option<nat>, arity: nat, outWeights: seq<E>, weight: V)
    : (h: HyperGraph<V, E>)
    requires Wf(g) && InScope(g, scope)
    ensures Wf(h) && Extends(g, h, scope) && ScopeKept(g, h, scope)
    ensures |h.arena| == |g.arena| + 1
    ensures h.arena[|g.arena|] == Operation(Range(|g.inPorts|, arity), Range(|g.outPorts|, |outWeights|), weight)
    ensures h.inPorts == g.inPorts + FreshInPorts(Some(|g.arena|), arity)
    ensures h.outPorts == g.outPorts + FreshOutPorts(Some(|g.arena|), outWeights)
    ensures Weights(h.outPorts, h.arena[|g.arena|].outputs) == outWeights
    ensures ScopeNodes(h, scope) == ScopeNodes(g, scope) + [|g.arena|]
  {
    assert g.outPorts + FreshOutPorts(Some(|g.arena|), outWeights) == g.outPorts + FreshOutPorts(Some(|g.arena|), outWeights) + [];
    FreshWeights(g.outPorts, Some(|g.arena|), outWeights, []);
    Allocate(g, scope, Operation(Range(|g.inPorts|, arity), Range(|g.outPorts|, |outWeights|), weight),
             FreshInPorts(Some(|g.arena|), arity), FreshOutPorts(Some(|g.arena|), outWeights))
  }

  /** `add_thunk`: a new thunk with one fresh bound out-port per bound weight, and per output
      weight one fresh output out-port paired with a fresh interior graph-output in-port;
      it starts with no interior nodes and no free-variable edges. */
  function AddThunk<V, E>(g: HyperGraph<V, E>, scope: Option<nat>, boundWeights: seq<E>, outWeights: seq<E>)
    : (h: HyperGraph<V, E>)
    requires Wf(g) && InScope(g, scope)
    ensures Wf(h) && Extends(g, h, scope) && ScopeKept(g, h, scope)
    ensures |h.arena| == |g.arena| + 1
    ensures h.arena[|g.arena|] == Thunk(Range(|g.outPorts|, |boundWeights|), Range(|g.inPorts|, |outWeights|),
                                        Range(|g.outPorts| + |boundWeights|, |outWeights|), [], None)
    ensures h.inPorts == g.inPorts + FreshInPorts(None, |outWeights|)
    ensures h.outPorts == g.outPorts + FreshOutPorts(None, boundWeights) + FreshOutPorts(Some(|g.arena|), outWeights)
    ensures Weights(h.outPorts, h.arena[|g.arena|].bound) == boundWeights
    ensures Weights(h.outPorts, h.arena[|g.arena|].outputs) == outWeights
    ensures ScopeNodes(h, scope) == ScopeNodes(g, scope) + [|g.arena|]
  {
    var bound := FreshOutPorts(None, boundWeights);
    var outs := FreshOutPorts(Some(|g.arena|), outWeights);
    assert g.outPorts + bound + outs == g.outPorts + bound + outs + [];
    FreshWeights(g.outPorts, None, boundWeights, outs);
    FreshWeights(g.outPorts + bound, Some(|g.arena|), outWeights, []);
    Allocate(g, scope, Thunk(Range(|g.outPorts|, |boundWeights|), Range(|g.inPorts|, |outWeights|),
                             Range(|g.outPorts| + |boundWeights|, |outWeights|), [], None),
             FreshInPorts(None, |outWeights|),
             FreshOutPorts(None, boundWeights) + FreshOutPorts(Some(|g.arena|), outWeights))
  }

  /** The weights of freshly appended out-ports are the weights they were made from. */
  lemma FreshWeights<E>(ports: seq<OutPort<E>>, owner: Option<nat>, ws: seq<E>, rest: seq<OutPort<E>>)
    ensures Weights(ports + FreshOutPorts(owner, ws) + rest, Range(|ports|, |ws|)) == ws
  {
    var all := ports + FreshOutPorts(owner, ws) + rest;
    forall k | 0 <= k < |ws| ensures all[|ports| + k].weight == ws[k] {
      assert all[|ports| + k] == FreshOutPorts(owner, ws)[k];
    }
  }

  /** `link`: in-port `i` is fed by out-port `o`, and `o` records the link. Linking an
      in-port twice is one of the errors `link` reports; it is ruled out here. */
  function Link<V, E>(g: HyperGraph<V, E>, o: nat, i: nat): (h: HyperGraph<V, E>)
    requires Wf(g) && o < |g.outPorts| && i < |g.inPorts| && g.inPorts[i].link.None?
    ensures Wf(h) && Linked(h, i) && h.inPorts[i].link == Some(o)
    ensures h.arena == g.arena && h.nodes == g.nodes
    ensures h.graphInputs == g.graphInputs && h.graphOutputs == g.graphOutputs
    ensures |h.inPorts| == |g.inPorts| && |h.outPorts| == |g.outPorts|
    ensures forall k :: 0 <= k < |g.inPorts| && k != i ==> h.inPorts[k] == g.inPorts[k]
    ensures h.inPorts[i].node == g.inPorts[i].node
    ensures forall k :: 0 <= k < |g.outPorts| ==> h.outPorts[k].node == g.outPorts[k].node &&
                                                  h.outPorts[k].weight == g.outPorts[k].weight
    ensures h.outPorts[o].links == g.outPorts[o].links + [i]
    ensures forall k :: 0 <= k < |g.outPorts| && k != o ==> h.outPorts[k] == g.outPorts[k]
  {
    g.(inPorts := g.inPorts[i := g.inPorts[i].(link := Some(o))],
       outPorts := g.outPorts[o := g.outPorts[o].(links := g.outPorts[o].links + [i])])
  }

  // ---------------------------------------------------------------------------
  // Properties of the fragment operations

  /** A new operation's in-ports are unlinked, so `build` rejects the graph until each is
      linked (when the operation is reached). */
  lemma NewOperationUnlinked<V, E>(g: HyperGraph<V, E>, scope: Option<nat>, arity: nat, outWeights: seq<E>, weight: V)
    requires Wf(g) && InScope(g, scope) && arity > 0
    ensures var h := AddOperation(g, scope, arity, outWeights, weight);
      !NodeValid(h, |g.arena|) && NodeChecks(h, |g.arena|)[0] == UninitializedInPort(|g.inPorts|) &&
      Fails(h, UninitializedInPort(|g.inPorts|))
  {
    var h := AddOperation(g, scope, arity, outWeights, weight);
    assert h.arena[|g.arena|].inputs[0] == |g.inPorts|;
    assert h.inPorts[|g.inPorts|] == FreshInPorts(Some(|g.arena|), arity)[0];
    assert |g.inPorts| in InPortsOf(h.arena[|g.arena|]);
  }

  /** `link` keeps every out-port's links live when they were. */
  lemma LinkKeepsLive<V, E>(g: HyperGraph<V, E>, o: nat, i: nat, p: nat)
    requires Wf(g) && o < |g.outPorts| && i < |g.inPorts| && g.inPorts[i].link.None?
    requires LinksLive(g, p)
    ensures LinksLive(Link(g, o, i), p)
  {
    var h := Link(g, o, i);
    if p == o {
      forall l | l in h.outPorts[o].links ensures l < |h.inPorts| {
        if l != i {
          assert l in g.outPorts[o].links;
        }
      }
    }
  }

  // ---------------------------------------------------------------------------
  // Cloning a thunk

  /** A built hypergraph: well-formed, every thunk has one interior graph output per output
      (as `add_thunk` makes it), and every in-port carries its edge (the out-port feeding it). */
  ghost predicate Frozen<V, E>(src: HyperGraph<V, E>) {
    Sound(src) &&
    (forall n :: 0 <= n < |src.arena| && src.arena[n].Thunk? ==> |src.arena[n].graphOutputs| == |src.arena[n].outputs|) &&
    forall i :: 0 <= i < |src.inPorts| ==> src.inPorts[i].link.Some? && src.inPorts[i].link.value < |src.outPorts|
  }

  /** The port references of every node, by position, are allocated. */
  ghost predicate IndexedPorts<V, E>(g: HyperGraph<V, E>) {
    (forall n, k :: 0 <= n < |g.arena| && 0 <= k < |InPortsOf(g.arena[n])| ==> InPortsOf(g.arena[n])[k] < |g.inPorts|) &&
    (forall n, k :: 0 <= n < |g.arena| && 0 <= k < |g.arena[n].outputs| ==> g.arena[n].outputs[k] < |g.outPorts|) &&
    (forall n, k :: 0 <= n < |g.arena| && g.arena[n].Thunk? && 0 <= k < |g.arena[n].bound| ==>
      g.arena[n].bound[k] < |g.outPorts|)
  }

  ghost predicate Sound<V, E>(g: HyperGraph<V, E>) {
    Wf(g) && IndexedPorts(g)
  }

  lemma WfIndexed<V, E>(g: HyperGraph<V, E>)
    requires Wf(g)
    ensures Sound(g)
  {
    forall n, k | 0 <= n < |g.arena| && 0 <= k < |InPortsOf(g.arena[n])| ensures InPortsOf(g.arena[n])[k] < |g.inPorts| {
      assert InPortsOf(g.arena[n])[k] in InPortsOf(g.arena[n]);
    }
    forall n, k | 0 <= n < |g.arena| && 0 <= k < |g.arena[n].outputs| ensures g.arena[n].outputs[k] < |g.outPorts| {
      assert g.arena[n].outputs[k] in g.arena[n].outputs;
    }
    forall n, k | 0 <= n < |g.arena| && g.arena[n].Thunk? && 0 <= k < |g.arena[n].bound| ensures g.arena[n].bound[k] < |g.outPorts| {
      assert g.arena[n].bound[k] in g.arena[n].bound;
    }
  }

  /** The weights of a list of out-ports. */
  function Weights<E>(ports: seq<OutPort<E>>, ids: seq<nat>): seq<E>
    requires forall k :: 0 <= k < |ids| ==> ids[k] < |ports|
  {
    seq(|ids|, k requires 0 <= k < |ids| => ports[ids[k]].weight)
  }

  /** The edges feeding a list of in-ports of a built graph. */
  function EdgesOf<V, E>(src: HyperGraph<V, E>, ins: seq<nat>): seq<nat>
    requires forall k :: 0 <= k < |ins| ==> ins[k] < |src.inPorts| && src.inPorts[ins[k]].link.Some?
  {
    seq(|ins|, k requires 0 <= k < |ins| => src.inPorts[ins[k]].link.value)
  }

  /** `HashMap::extend` over a `zip`: the pairs are inserted in order, and the shorter list
      ends the zip. */
  function ExtendZip(m: map<nat, nat>, keys: seq<nat>, values: seq<nat>): map<nat, nat>
    decreases |keys|
  {
    if keys == [] || values == [] then m else ExtendZip(m[keys[0] := values[0]], keys[1..], values[1..])
  }

  /** Extending with distinct keys maps each key to its partner; other entries are kept. */
  lemma {:induction false} ExtendZipFacts(m: map<nat, nat>, keys: seq<nat>, values: seq<nat>)
    requires |keys| <= |values|
    ensures ExtendZip(m, keys, values).Keys == m.Keys + Elems(keys)
    ensures forall x :: x in m && x !in keys ==> ExtendZip(m, keys, values)[x] == m[x]
    ensures NoDup(keys) ==> forall j :: 0 <= j < |keys| ==> ExtendZip(m, keys, values)[keys[j]] == values[j]
    decreases |keys|
  {
    if keys != [] {
      var m' := m[keys[0] := values[0]];
      ExtendZipFacts(m', keys[1..], values[1..]);
      var r := ExtendZip(m, keys, values);
      assert Elems(keys) == {keys[0]} + Elems(keys[1..]) by {
        assert keys == [keys[0]] + keys[1..];
      }
      if NoDup(keys) {
        forall j | 0 <= j < |keys| ensures r[keys[j]] == values[j] {
          if j == 0 {
            assert keys[0] !in keys[1..];
          } else {
            assert keys[j] == keys[1..][j - 1];
          }
        }
      }
    }
  }

  /** Every entry of `m` is still in `m'`. */
  ghost predicate MapGrows(m: map<nat, nat>, m': map<nat, nat>) {
    forall x :: x in m ==> x in m' && m'[x] == m[x]
  }

  ghost predicate KeysBelow(m: map<nat, nat>, n: nat) {
    forall x :: x in m ==> x < n
  }

  /** Node `d` of `h` copies the surface of node `c` of `src`: the same kind, output weights,
      number of in-ports (each mapped by `m` to the edge feeding its original), operation
      weight, and bound-input weights. */
  ghost predicate Shell<V, E>(src: HyperGraph<V, E>, c: nat, h: HyperGraph<V, E>, d: nat, m: map<nat, nat>)
    requires Frozen(src) && c < |src.arena| && Sound(h) && d < |h.arena|
  {
    var s := src.arena[c];
    var n := h.arena[d];
    n.Operation? == s.Operation? &&
    Weights(h.outPorts, n.outputs) == Weights(src.outPorts, s.outputs) &&
    |InPortsOf(n)| == |InPortsOf(s)| &&
    (forall j :: 0 <= j < |InPortsOf(s)| ==>
      InPortsOf(n)[j] in m && m[InPortsOf(n)[j]] == EdgesOf(src, InPortsOf(s))[j]) &&
    (s.Operation? ==> n.weight == s.weight) &&
    (s.Thunk? ==> Weights(h.outPorts, n.bound) == Weights(src.outPorts, s.bound))
  }

  /** Node `d` of `h` is a copy of node `c` of `src`, at every depth, with `m` taking each
      copied in-port to the edge feeding its original. */
  ghost predicate Copied<V, E>(src: HyperGraph<V, E>, c: nat, h: HyperGraph<V, E>, d: nat, m: map<nat, nat>)
    requires Frozen(src) && c < |src.arena| && Sound(h) && d < |h.arena|
    decreases |src.arena| - c
  {
    Shell(src, c, h, d, m) &&
    (src.arena[c].Thunk? ==>
      |h.arena[d].nodes| == |src.arena[c].nodes| &&
      forall j :: 0 <= j < |src.arena[c].nodes| ==>
        Copied(src, src.arena[c].nodes[j], h, h.arena[d].nodes[j], m))
  }

  /** `h2` keeps the nodes of `h1` from `d` on and the out-ports of `h1`. */
  ghost predicate KeptFrom<V, E>(h1: HyperGraph<V, E>, h2: HyperGraph<V, E>, d: nat) {
    |h1.arena| <= |h2.arena| && (forall k :: d <= k < |h1.arena| ==> h2.arena[k] == h1.arena[k]) &&
    PortsKept(h1, h2)
  }

  lemma WeightsKept<E>(p1: seq<OutPort<E>>, p2: seq<OutPort<E>>, ids: seq<nat>)
    requires |p1| <= |p2| && p2[..|p1|] == p1 && forall k :: 0 <= k < |ids| ==> ids[k] < |p1|
    ensures Weights(p2, ids) == Weights(p1, ids)
  {
    forall k | 0 <= k < |ids| ensures p2[ids[k]] == p1[ids[k]] {
      assert p2[..|p1|][ids[k]] == p2[ids[k]];
    }
  }

  /** `h2` keeps the out-ports of `h1`. */
  ghost predicate PortsKept<V, E>(h1: HyperGraph<V, E>, h2: HyperGraph<V, E>) {
    |h1.outPorts| <= |h2.outPorts| && h2.outPorts[..|h1.outPorts|] == h1.outPorts
  }

  /** A node's surface does not depend on its interior node list. */
  lemma ShellKept<V, E>(src: HyperGraph<V, E>, c: nat, h1: HyperGraph<V, E>, h2: HyperGraph<V, E>, d: nat,
                        m1: map<nat, nat>, m2: map<nat, nat>)
    requires Frozen(src) && c < |src.arena| && Sound(h1) && Sound(h2) && d < |h1.arena| && d < |h2.arena|
    requires h2.arena[d] == h1.arena[d] || (h1.arena[d].Thunk? && h2.arena[d].Thunk? && h2.arena[d] == h1.arena[d].(nodes := h2.arena[d].nodes))
    requires Shell(src, c, h1, d, m1) && PortsKept(h1, h2) && MapGrows(m1, m2)
    ensures Shell(src, c, h2, d, m2)
  {
    WeightsKept(h1.outPorts, h2.outPorts, h1.arena[d].outputs);
    if h1.arena[d].Thunk? {
      WeightsKept(h1.outPorts, h2.outPorts, h1.arena[d].bound);
    }
  }

  /** A copy stays a copy while the graph grows around it and the in-port map gains entries. */
  lemma {:induction false} CopiedKept<V, E>(src: HyperGraph<V, E>, c: nat, h1: HyperGraph<V, E>, h2: HyperGraph<V, E>,
                                           d: nat, m1: map<nat, nat>, m2: map<nat, nat>)
    requires Frozen(src) && c < |src.arena| && Sound(h1) && Sound(h2) && d < |h1.arena|
    requires Copied(src, c, h1, d, m1) && KeptFrom(h1, h2, d) && MapGrows(m1, m2)
    ensures Copied(src, c, h2, d, m2)
    decreases |src.arena| - c
  {
    ShellKept(src, c, h1, h2, d, m1, m2);
    if src.arena[c].Thunk? {
      assert h2.arena[d] == h1.arena[d];
      forall j | 0 <= j < |src.arena[c].nodes|
        ensures Copied(src, src.arena[c].nodes[j], h2, h2.arena[d].nodes[j], m2)
      {
        CopiedKept(src, src.arena[c].nodes[j], h1, h2, h1.arena[d].nodes[j], m1, m2);
      }
    }
  }

  /** What one cloning step promises about the fragment and the maps. */
  ghost predicate ClonedInto<V, E>(src: HyperGraph<V, E>, c: nat, g: HyperGraph<V, E>, h: HyperGraph<V, E>,
                                   scope: Option<nat>, inMap: map<nat, nat>, inMap': map<nat, nat>)
    requires Frozen(src) && c < |src.arena| && Wf(g) && InScope(g, scope)
  {
    Sound(h) && Extends(g, h, scope) && ScopeKept(g, h, scope) &&
    ScopeNodes(h, scope) == ScopeNodes(g, scope) + [|g.arena|] &&
    |g.arena| < |h.arena| && Copied(src, c, h, |g.arena|, inMap') &&
    MapGrows(inMap, inMap') && KeysBelow(inMap', |h.inPorts|)
  }

  /** One node of a thunk's interior: an operation is re-created with the same number of
      inputs, output weights and weight; a thunk is cloned recursively. */
  method CloneNode<V, E>(src: HyperGraph<V, E>, c: nat, g: HyperGraph<V, E>, scope: Option<nat>,
                         inMap: map<nat, nat>, outMap: map<nat, nat>)
    returns (h: HyperGraph<V, E>, inMap': map<nat, nat>, outMap': map<nat, nat>)
    requires Frozen(src) && c < |src.arena| && Wf(g) && InScope(g, scope) && KeysBelow(inMap, |g.inPorts|)
    ensures ClonedInto(src, c, g, h, scope, inMap, inMap')
    ensures outMap.Keys <= outMap'.Keys
    decreases |src.arena| - c, 2
  {
    match src.arena[c]
    case Thunk(_, _, _, _, _) =>
      h, inMap', outMap' := CloneThunk(src, c, g, scope, inMap, outMap);
    case Operation(inputs, outputs, weight) =>
      var id := |g.arena|;
      h := AddOperation(g, scope, |inputs|, Weights(src.outPorts, outputs), weight);
      WfIndexed(h);
      inMap' := ExtendZip(inMap, h.arena[id].inputs, EdgesOf(src, InPortsOf(src.arena[c])));
      outMap' := ExtendZip(outMap, outputs, h.arena[id].outputs);
      FreshOperationCopied(src, c, g, h, scope, inMap, inMap');
      ExtendZipFacts(outMap, outputs, h.arena[id].outputs);
  }

  lemma FreshOperationCopied<V, E>(src: HyperGraph<V, E>, c: nat, g: HyperGraph<V, E>, h: HyperGraph<V, E>,
                                   scope: Option<nat>, inMap: map<nat, nat>, inMap': map<nat, nat>)
    requires Frozen(src) && c < |src.arena| && src.arena[c].Operation?
    requires Wf(g) && InScope(g, scope) && KeysBelow(inMap, |g.inPorts|)
    requires h == AddOperation(g, scope, |src.arena[c].inputs|, Weights(src.outPorts, src.arena[c].outputs), src.arena[c].weight)
    requires inMap' == ExtendZip(inMap, h.arena[|g.arena|].inputs, EdgesOf(src, InPortsOf(src.arena[c])))
    requires Sound(h)
    ensures ClonedInto(src, c, g, h, scope, inMap, inMap')
  {
    var id := |g.arena|;
    var s := src.arena[c];
    var newPorts := h.arena[id].inputs;
    ExtendZipFacts(inMap, newPorts, EdgesOf(src, InPortsOf(s)));
    assert NoDup(newPorts);
    forall x | x in inMap ensures x !in newPorts { }
  }

  /** `Thunk::clone_thunk`: adds a thunk with the bound-input and output weights of thunk `t`
      of the built graph `src`, records the new bound inputs and outputs in `outMap` and the
      new interior graph outputs in `inMap`, then fills it (`in_thunk`). */
  method CloneThunk<V, E>(src: HyperGraph<V, E>, t: nat, g: HyperGraph<V, E>, scope: Option<nat>,
                          inMap: map<nat, nat>, outMap: map<nat, nat>)
    returns (h: HyperGraph<V, E>, inMap': map<nat, nat>, outMap': map<nat, nat>)
    requires Frozen(src) && t < |src.arena| && src.arena[t].Thunk?
    requires Wf(g) && InScope(g, scope) && KeysBelow(inMap, |g.inPorts|)
    ensures ClonedInto(src, t, g, h, scope, inMap, inMap')
    ensures outMap.Keys <= outMap'.Keys
    decreases |src.arena| - t, 1
  {
    var id := |g.arena|;
    var thunk := src.arena[t];
    var shell := AddThunk(g, scope, Weights(src.outPorts, thunk.bound), Weights(src.outPorts, thunk.outputs));
    WfIndexed(shell);
    var outMap1 := ExtendZip(outMap, thunk.bound, shell.arena[id].bound);
    ExtendZipFacts(outMap, thunk.bound, shell.arena[id].bound);
    ExtendZipFacts(outMap1, thunk.outputs, shell.arena[id].outputs);
    outMap1 := ExtendZip(outMap1, thunk.outputs, shell.arena[id].outputs);
    var inMap1 := ExtendZip(inMap, shell.arena[id].graphOutputs, EdgesOf(src, InPortsOf(src.arena[t])));
    FreshThunkShell(src, t, g, shell, scope, inMap, inMap1);
    FillingStart(src, t, shell, id, inMap1);
    h, inMap', outMap' := FillThunk(src, t, shell, id, inMap1, outMap1);
    ClonedAssembled(src, t, g, shell, h, scope, inMap, inMap1, inMap');
  }

  /** Thunk `id` of `h` copies the surface of thunk `t` of `src` and the first `k` nodes of
      its interior, and `h` grew from `h0` inside thunk `id` only. */
  ghost predicate Filling<V, E>(src: HyperGraph<V, E>, t: nat, h0: HyperGraph<V, E>, h: HyperGraph<V, E>,
                                id: nat, k: nat, m: map<nat, nat>)
    requires Frozen(src) && t < |src.arena| && src.arena[t].Thunk?
    requires Sound(h0) && id < |h0.arena| && h0.arena[id].Thunk?
  {
    k <= |src.arena[t].nodes| && Sound(h) && Extends(h0, h, Some(id)) && ScopeKept(h0, h, Some(id)) &&
    |h.arena[id].nodes| == k && Shell(src, t, h, id, m) &&
    forall j :: 0 <= j < k ==> Copied(src, src.arena[t].nodes[j], h, h.arena[id].nodes[j], m)
  }

  lemma FillingStart<V, E>(src: HyperGraph<V, E>, t: nat, h0: HyperGraph<V, E>, id: nat, m: map<nat, nat>)
    requires Frozen(src) && t < |src.arena| && src.arena[t].Thunk?
    requires Sound(h0) && id < |h0.arena| && h0.arena[id].Thunk? && h0.arena[id].nodes == []
    requires Shell(src, t, h0, id, m)
    ensures Filling(src, t, h0, h0, id, 0, m)
  {
    assert h0.outPorts[..|h0.outPorts|] == h0.outPorts && h0.inPorts[..|h0.inPorts|] == h0.inPorts;
  }

  /** Cloning interior node `k` extends the filling by one node. */
  lemma FillingStep<V, E>(src: HyperGraph<V, E>, t: nat, h0: HyperGraph<V, E>, h1: HyperGraph<V, E>,
                          h2: HyperGraph<V, E>, id: nat, k: nat, m1: map<nat, nat>, m2: map<nat, nat>)
    requires Frozen(src) && t < |src.arena| && src.arena[t].Thunk? && k < |src.arena[t].nodes|
    requires Sound(h0) && id < |h0.arena| && h0.arena[id].Thunk?
    requires Filling(src, t, h0, h1, id, k, m1)
    requires ClonedInto(src, src.arena[t].nodes[k], h1, h2, Some(id), m1, m2)
    ensures Filling(src, t, h0, h2, id, k + 1, m2)
  {
    var nodes := src.arena[t].nodes;
    ShellKept(src, t, h1, h2, id, m1, m2);
    forall j | 0 <= j < k + 1 ensures Copied(src, nodes[j], h2, h2.arena[id].nodes[j], m2) {
      if j < k {
        var d := h1.arena[id].nodes[j];
        assert h2.arena[id].nodes[j] == d;
        assert KeptFrom(h1, h2, d);
        CopiedKept(src, nodes[j], h1, h2, d, m1, m2);
      } else {
        assert h2.arena[id].nodes[k] == |h1.arena|;
      }
    }
    assert h2.outPorts[..|h0.outPorts|] == h0.outPorts by {
      assert h2.outPorts[..|h0.outPorts|] == h2.outPorts[..|h1.outPorts|][..|h0.outPorts|];
    }
    assert h2.inPorts[..|h0.inPorts|] == h0.inPorts by {
      assert h2.inPorts[..|h0.inPorts|] == h2.inPorts[..|h1.inPorts|][..|h0.inPorts|];
    }
  }

  /** The closure `clone_thunk` passes to `in_thunk`: every interior node of thunk `t`, in
      order, is cloned into thunk `id`. */
  method FillThunk<V, E>(src: HyperGraph<V, E>, t: nat, h0: HyperGraph<V, E>, id: nat,
                         inMap: map<nat, nat>, outMap: map<nat, nat>)
    returns (h: HyperGraph<V, E>, inMap': map<nat, nat>, outMap': map<nat, nat>)
    requires Frozen(src) && t < |src.arena| && src.arena[t].Thunk?
    requires Sound(h0) && id < |h0.arena| && h0.arena[id].Thunk?
    requires Filling(src, t, h0, h0, id, 0, inMap) && KeysBelow(inMap, |h0.inPorts|)
    ensures Filling(src, t, h0, h, id, |src.arena[t].nodes|, inMap')
    ensures MapGrows(inMap, inMap') && KeysBelow(inMap', |h.inPorts|)
    ensures outMap.Keys <= outMap'.Keys
    decreases |src.arena| - t, 0
  {
    var nodes := src.arena[t].nodes;
    h, inMap', outMap' := h0, inMap, outMap;
    for k := 0 to |nodes|
      invariant Filling(src, t, h0, h, id, k, inMap')
      invariant MapGrows(inMap, inMap') && KeysBelow(inMap', |h.inPorts|)
      invariant outMap.Keys <= outMap'.Keys
    {
      ghost var h1, m1 := h, inMap';
      h, inMap', outMap' := CloneNode(src, nodes[k], h, Some(id), inMap', outMap');
      FillingStep(src, t, h0, h1, h, id, k, m1, inMap');
    }
  }

  /** The new thunk's surface copies the original's. */
  lemma FreshThunkShell<V, E>(src: HyperGraph<V, E>, t: nat, g: HyperGraph<V, E>, h: HyperGraph<V, E>,
                              scope: Option<nat>, inMap: map<nat, nat>, inMap': map<nat, nat>)
    requires Frozen(src) && t < |src.arena| && src.arena[t].Thunk?
    requires Wf(g) && InScope(g, scope) && KeysBelow(inMap, |g.inPorts|)
    requires h == AddThunk(g, scope, Weights(src.outPorts, src.arena[t].bound), Weights(src.outPorts, src.arena[t].outputs))
    requires inMap' == ExtendZip(inMap, h.arena[|g.arena|].graphOutputs, EdgesOf(src, InPortsOf(src.arena[t])))
    requires Sound(h)
    ensures Shell(src, t, h, |g.arena|, inMap')
    ensures MapGrows(inMap, inMap') && KeysBelow(inMap', |h.inPorts|)
  {
    var id := |g.arena|;
    var s := src.arena[t];
    var newPorts := h.arena[id].graphOutputs;
    ExtendZipFacts(inMap, newPorts, EdgesOf(src, InPortsOf(s)));
    assert NoDup(newPorts);
    forall x | x in inMap ensures x !in newPorts { }
  }

  /** The finished thunk is a copy, and the fragment outside it only grew. */
  lemma ClonedAssembled<V, E>(src: HyperGraph<V, E>, t: nat, g: HyperGraph<V, E>, h0: HyperGraph<V, E>,
                              h: HyperGraph<V, E>, scope: Option<nat>,
                              inMap: map<nat, nat>, inMap0: map<nat, nat>, inMap': map<nat, nat>)
    requires Frozen(src) && t < |src.arena| && src.arena[t].Thunk?
    requires Wf(g) && InScope(g, scope) && Sound(h0)
    requires Extends(g, h0, scope) && ScopeKept(g, h0, scope) && |h0.arena| == |g.arena| + 1
    requires ScopeNodes(h0, scope) == ScopeNodes(g, scope) + [|g.arena|]
    requires h0.arena[|g.arena|].Thunk?
    requires Filling(src, t, h0, h, |g.arena|, |src.arena[t].nodes|, inMap')
    requires MapGrows(inMap, inMap0) && MapGrows(inMap0, inMap') && KeysBelow(inMap', |h.inPorts|)
    ensures ClonedInto(src, t, g, h, scope, inMap, inMap')
  {
    var id := |g.arena|;
    assert h.outPorts[..|g.outPorts|] == g.outPorts by {
      assert h.outPorts[..|g.outPorts|] == h.outPorts[..|h0.outPorts|][..|g.outPorts|];
    }
    assert h.inPorts[..|g.inPorts|] == g.inPorts by {
      assert h.inPorts[..|g.inPorts|] == h.inPorts[..|h0.inPorts|][..|g.inPorts|];
    }
    if scope.Some? {
      assert h.arena[scope.value] == h0.arena[scope.value];
    }
  }
}
