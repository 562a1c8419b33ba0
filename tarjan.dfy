/** Tarjan's strongly-connected-components ordering used by `build` to sort a node
    list (`strongconnect`, `tarjans` in `sd-core/src/hypergraph/builder.rs`).

    Nodes are identified by `nat`. The successor relation (`Node::flat_successors`,
    defined outside this model) is a parameter. The Rust `IndexSet` stack is a
    sequence without duplicates, the `visited` map records the low link of every node
    seen so far (the stack position it can reach back to), and `output` collects the
    components in the order they are completed. */
module Tarjan {
  import opened Common

  type Successors = nat -> seq<nat>

  // ---------------------------------------------------------------------------
  // Reachability

  ghost predicate IsPath(succ: Successors, p: seq<nat>) {
    |p| >= 1 && forall i :: 0 <= i < |p| - 1 ==> p[i + 1] in succ(p[i])
  }

  /** `b` can be reached from `a` by following zero or more successor edges. */
  ghost predicate Reach(succ: Successors, a: nat, b: nat) {
    exists p :: IsPath(succ, p) && p[0] == a && p[|p| - 1] == b
  }

  /** `a` and `b` lie in the same strongly connected component. */
  ghost predicate SameScc(succ: Successors, a: nat, b: nat) {
    Reach(succ, a, b) && Reach(succ, b, a)
  }

  /** No successor edge leaves `X`. */
  ghost predicate ClosedUnder(succ: Successors, X: set<nat>) {
    forall x, y :: x in X && y in succ(x) ==> y in X
  }

  lemma ReachRefl(succ: Successors, a: nat)
    ensures Reach(succ, a, a)
  {
    assert IsPath(succ, [a]);
  }

  lemma ReachEdge(succ: Successors, a: nat, b: nat)
    requires b in succ(a)
    ensures Reach(succ, a, b)
  {
    assert IsPath(succ, [a, b]);
  }

  lemma ReachTrans(succ: Successors, a: nat, b: nat, c: nat)
    requires Reach(succ, a, b) && Reach(succ, b, c)
    ensures Reach(succ, a, c)
  {
    var p :| IsPath(succ, p) && p[0] == a && p[|p| - 1] == b;
    var q :| IsPath(succ, q) && q[0] == b && q[|q| - 1] == c;
    var pq := p + q[1..];
    forall i | 0 <= i < |pq| - 1 ensures pq[i + 1] in succ(pq[i]) {
      if i < |p| - 1 {
        assert pq[i] == p[i] && pq[i + 1] == p[i + 1];
      } else {
        assert pq[i] == q[i - |p| + 1] && pq[i + 1] == q[i - |p| + 2];
      }
    }
    assert IsPath(succ, pq);
  }

  /** A path that starts in a closed set never leaves it. */
  lemma ReachStaysIn(succ: Successors, X: set<nat>, a: nat, b: nat)
    requires ClosedUnder(succ, X) && a in X && Reach(succ, a, b)
    ensures b in X
  {
    var p :| IsPath(succ, p) && p[0] == a && p[|p| - 1] == b;
    var k := 0;
    while k < |p| - 1
      invariant 0 <= k < |p| && p[k] in X
    {
      k := k + 1;
    }
  }

  // ---------------------------------------------------------------------------
  // The state of the search

  /** A successor `n` of a node whose low link is `low` has been dealt with: it is in a
      completed component, or on the stack no lower than `low`. */
  ghost predicate Settled(n: nat, stack: seq<nat>, low: nat, output: seq<seq<nat>>) {
    n in Flatten(output) || (n in stack && low <= FirstIndex(stack, n))
  }

  /** The node at stack position `k` has processed all its successors and stays on the
      stack because its low link points strictly below it. */
  ghost predicate Finished(succ: Successors, stack: seq<nat>, visited: map<nat, nat>,
                           output: seq<seq<nat>>, k: nat) {
    k < |stack| && stack[k] in visited && visited[stack[k]] < k &&
    forall n :: n in succ(stack[k]) ==> Settled(n, stack, visited[stack[k]], output)
  }

  /** Stack and output hold distinct nodes, and together they are the visited ones. */
  ghost predicate Partition(U: set<nat>, stack: seq<nat>, visited: map<nat, nat>,
                            output: seq<seq<nat>>) {
    NoDup(stack) && NoDup(Flatten(output)) &&
    (forall x :: x in stack ==> x !in Flatten(output)) &&
    (forall x :: x in visited <==> x in stack || x in Flatten(output)) &&
    visited.Keys <= U
  }

  /** Every stack node's low link is at or below its position, and names a stack node
      it can reach. */
  ghost predicate LowLinks(succ: Successors, stack: seq<nat>, visited: map<nat, nat>) {
    forall k {:trigger visited[stack[k]]} :: 0 <= k < |stack| ==>
      stack[k] in visited && visited[stack[k]] <= k && Reach(succ, stack[k], stack[visited[stack[k]]])
  }

  /** Completed components are strongly connected, and every edge out of the `i`-th one
      ends in it or in an earlier one. */
  ghost predicate Emitted(succ: Successors, output: seq<seq<nat>>) {
    (forall i, x, n :: 0 <= i < |output| && x in output[i] && n in succ(x) ==>
       n in Flatten(output[..i + 1])) &&
    (forall i, x, y :: 0 <= i < |output| && x in output[i] && y in output[i] ==> Reach(succ, x, y))
  }

  /** The search invariant; `active` holds the nodes whose `strongconnect` call is
      still running (they are on the stack but not finished). */
  ghost predicate Inv(succ: Successors, U: set<nat>, stack: seq<nat>, visited: map<nat, nat>,
                      output: seq<seq<nat>>, active: set<nat>) {
    Partition(U, stack, visited, output) &&
    LowLinks(succ, stack, visited) &&
    (forall k :: 0 <= k < |stack| && stack[k] !in active ==> Finished(succ, stack, visited, output, k)) &&
    Emitted(succ, output)
  }

  // ---------------------------------------------------------------------------
  // Steps of the search, one lemma each

  lemma SubsetCard(A: set<nat>, B: set<nat>)
    requires A <= B
    ensures |A| <= |B|
  {
    if A != {} {
      var a :| a in A;
      SubsetCard(A - {a}, B - {a});
    }
  }

  /** Pushing an unvisited node keeps the invariant, with the node active. */
  lemma PushKeepsInv(succ: Successors, U: set<nat>, stack: seq<nat>, visited: map<nat, nat>,
                     output: seq<seq<nat>>, active: set<nat>, u: nat)
    requires Inv(succ, U, stack, visited, output, active)
    requires u in U && u !in visited
    ensures Inv(succ, U, stack + [u], visited[u := |stack|], output, active + {u})
  {
    PushPartition(U, stack, visited, output, u);
    PushLowLinks(succ, stack, visited, u);
    PushFinished(succ, stack, visited, output, active, u);
  }

  lemma PushPartition(U: set<nat>, stack: seq<nat>, visited: map<nat, nat>,
                      output: seq<seq<nat>>, u: nat)
    requires Partition(U, stack, visited, output)
    requires u in U && u !in visited
    ensures Partition(U, stack + [u], visited[u := |stack|], output)
  {
  }

  lemma PushLowLinks(succ: Successors, stack: seq<nat>, visited: map<nat, nat>, u: nat)
    requires LowLinks(succ, stack, visited)
    requires u !in visited
    ensures LowLinks(succ, stack + [u], visited[u := |stack|])
  {
    var S := stack + [u];
    var V := visited[u := |stack|];
    forall k | 0 <= k < |S|
      ensures S[k] in V && V[S[k]] <= k && Reach(succ, S[k], S[V[S[k]]])
    {
      if k == |stack| {
        ReachRefl(succ, u);
      } else {
        assert S[k] == stack[k] && S[k] != u;
        assert S[V[S[k]]] == stack[visited[stack[k]]];
      }
    }
  }

  lemma PushFinished(succ: Successors, stack: seq<nat>, visited: map<nat, nat>,
                     output: seq<seq<nat>>, active: set<nat>, u: nat)
    requires forall k :: 0 <= k < |stack| && stack[k] !in active ==> Finished(succ, stack, visited, output, k)
    requires u !in visited
    ensures forall k :: 0 <= k < |stack + [u]| && (stack + [u])[k] !in active + {u} ==>
      Finished(succ, stack + [u], visited[u := |stack|], output, k)
  {
    var S := stack + [u];
    var V := visited[u := |stack|];
    forall k | 0 <= k < |S| && S[k] !in active + {u}
      ensures Finished(succ, S, V, output, k)
    {
      assert S[k] == stack[k] && S[k] != u;
      assert Finished(succ, stack, visited, output, k);
      forall n | n in succ(S[k]) ensures Settled(n, S, V[S[k]], output) {
        assert Settled(n, stack, visited[stack[k]], output);
        if n in stack {
          FirstIndexExtend(stack, S, n);
        }
      }
    }
  }

  /** Lowering an active node's low link to a stack position it can reach keeps the invariant. */
  lemma LowerKeepsInv(succ: Successors, U: set<nat>, stack: seq<nat>, visited: map<nat, nat>,
                      output: seq<seq<nat>>, active: set<nat>, p: nat, w: nat)
    requires Inv(succ, U, stack, visited, output, active)
    requires p < |stack| && stack[p] in active
    requires w <= p && Reach(succ, stack[p], stack[w])
    ensures Inv(succ, U, stack, visited[stack[p] := w], output, active)
  {
    LowerPartition(U, stack, visited, output, p, w);
    LowerLowLinks(succ, stack, visited, p, w);
    LowerFinished(succ, stack, visited, output, active, p, w);
  }

  lemma LowerPartition(U: set<nat>, stack: seq<nat>, visited: map<nat, nat>,
                       output: seq<seq<nat>>, p: nat, w: nat)
    requires Partition(U, stack, visited, output)
    requires p < |stack|
    ensures Partition(U, stack, visited[stack[p] := w], output)
  {
  }

  lemma LowerLowLinks(succ: Successors, stack: seq<nat>, visited: map<nat, nat>, p: nat, w: nat)
    requires LowLinks(succ, stack, visited) && NoDup(stack)
    requires p < |stack| && w <= p && Reach(succ, stack[p], stack[w])
    ensures LowLinks(succ, stack, visited[stack[p] := w])
  {
    var V := visited[stack[p] := w];
    forall k | 0 <= k < |stack|
      ensures stack[k] in V && V[stack[k]] <= k && Reach(succ, stack[k], stack[V[stack[k]]])
    {
      if k != p {
        assert stack[k] != stack[p];
        assert visited[stack[k]] <= k;
      }
    }
  }

  lemma LowerFinished(succ: Successors, stack: seq<nat>, visited: map<nat, nat>,
                      output: seq<seq<nat>>, active: set<nat>, p: nat, w: nat)
    requires forall k :: 0 <= k < |stack| && stack[k] !in active ==> Finished(succ, stack, visited, output, k)
    requires NoDup(stack) && p < |stack| && stack[p] in active
    ensures forall k :: 0 <= k < |stack| && stack[k] !in active ==>
      Finished(succ, stack, visited[stack[p] := w], output, k)
  {
    forall k | 0 <= k < |stack| && stack[k] !in active
      ensures Finished(succ, stack, visited[stack[p] := w], output, k)
    {
      assert Finished(succ, stack, visited, output, k);
      assert stack[k] != stack[p];
    }
  }

  /** A successor settled before a nested call (which only pushes above and completes
      components after the existing ones) is still settled after it. */
  lemma SettledGrow(n: nat, S: seq<nat>, S': seq<nat>, low: nat, O: seq<seq<nat>>, O': seq<seq<nat>>)
    requires Settled(n, S, low, O)
    requires |S| <= |S'| && S'[..|S|] == S
    requires |O| <= |O'| && O'[..|O|] == O
    ensures Settled(n, S', low, O')
  {
    FlattenExtend(O, O');
    if n in Flatten(O) {
      assert Flatten(O')[FirstIndex(Flatten(O), n)] == n;
    } else {
      assert S'[FirstIndex(S, n)] == n;
      FirstIndexExtend(S, S', n);
    }
  }

  /** Every node from stack position `p` up reaches the node at `p`, by following low links
      that stay at or above `p`. */
  lemma {:induction false} ReachBack(succ: Successors, stack: seq<nat>, visited: map<nat, nat>, p: nat, k: nat)
    requires LowLinks(succ, stack, visited)
    requires p <= k < |stack|
    requires forall j :: p < j < |stack| ==> stack[j] in visited && p <= visited[stack[j]] < j
    ensures Reach(succ, stack[k], stack[p])
    decreases k
  {
    if k == p {
      ReachRefl(succ, stack[p]);
    } else {
      var m := visited[stack[k]];
      ReachBack(succ, stack, visited, p, m);
      ReachTrans(succ, stack[k], stack[m], stack[p]);
    }
  }

  /** Completing the component rooted at stack position `p` keeps the invariant. */
  lemma PopKeepsInv(succ: Successors, U: set<nat>, stack: seq<nat>, visited: map<nat, nat>,
                    output: seq<seq<nat>>, active: set<nat>, p: nat)
    requires p < |stack|
    requires Inv(succ, U, stack, visited, output, active + {stack[p]})
    requires forall a :: a in active ==> a in stack[..p]
    requires visited[stack[p]] == p
    requires forall k :: p < k < |stack| ==> p <= visited[stack[k]]
    requires forall n :: n in succ(stack[p]) ==> Settled(n, stack, p, output)
    requires forall k :: p <= k < |stack| ==> Reach(succ, stack[p], stack[k])
    ensures Inv(succ, U, stack[..p], visited, output + [stack[p..]], active)
  {
    PopPartition(U, stack, visited, output, p);
    PopLowLinks(succ, stack, visited, p);
    PopFinished(succ, stack, visited, output, active, p);
    forall k | p < k < |stack| ensures stack[k] in visited && p <= visited[stack[k]] < k {
      assert stack[k] !in active + {stack[p]} by {
        assert stack[k] !in stack[..p];
      }
      assert Finished(succ, stack, visited, output, k);
    }
    PopClosed(succ, stack, visited, output, active, p);
    PopConnected(succ, stack, visited, p);
    PopEmitted(succ, output, stack[p..]);
  }

  lemma PopPartition(U: set<nat>, stack: seq<nat>, visited: map<nat, nat>, output: seq<seq<nat>>, p: nat)
    requires Partition(U, stack, visited, output) && p <= |stack|
    ensures Partition(U, stack[..p], visited, output + [stack[p..]])
  {
    var T := stack[p..];
    var F := Flatten(output);
    FlattenAppend(output, T);
    assert stack == stack[..p] + T;
    forall i, j | 0 <= i < j < |F + T| ensures (F + T)[i] != (F + T)[j] {
      if j >= |F| {
        assert (F + T)[j] == stack[p + j - |F|] && stack[p + j - |F|] in stack;
        if i >= |F| {
          assert (F + T)[i] == stack[p + i - |F|];
        } else {
          assert (F + T)[i] == F[i] && F[i] in F;
        }
      } else {
        assert (F + T)[i] == F[i] && (F + T)[j] == F[j];
      }
    }
  }

  lemma PopLowLinks(succ: Successors, stack: seq<nat>, visited: map<nat, nat>, p: nat)
    requires LowLinks(succ, stack, visited) && p <= |stack|
    ensures LowLinks(succ, stack[..p], visited)
  {
    var S := stack[..p];
    forall k | 0 <= k < |S|
      ensures S[k] in visited && visited[S[k]] <= k && Reach(succ, S[k], S[visited[S[k]]])
    {
      assert S[k] == stack[k];
      assert visited[stack[k]] <= k;
    }
  }

  /** Nodes below the root stay finished: a successor that was on the stack above the
      root is now in the completed component. */
  lemma PopFinished(succ: Successors, stack: seq<nat>, visited: map<nat, nat>,
                    output: seq<seq<nat>>, active: set<nat>, p: nat)
    requires p < |stack| && NoDup(stack)
    requires forall k :: 0 <= k < |stack| && stack[k] !in active + {stack[p]} ==>
      Finished(succ, stack, visited, output, k)
    ensures forall k :: 0 <= k < p && stack[k] !in active ==>
      Finished(succ, stack[..p], visited, output + [stack[p..]], k)
  {
    var S := stack[..p];
    var T := stack[p..];
    var O := output + [T];
    FlattenAppend(output, T);
    forall k | 0 <= k < p && stack[k] !in active
      ensures Finished(succ, S, visited, O, k)
    {
      assert S[k] == stack[k] && stack[k] != stack[p];
      assert Finished(succ, stack, visited, output, k);
      forall n | n in succ(S[k]) ensures Settled(n, S, visited[S[k]], O) {
        assert Settled(n, stack, visited[stack[k]], output);
        if n in stack && n !in Flatten(output) {
          var j := FirstIndex(stack, n);
          if j < p {
            assert S[j] == n;
            FirstIndexExtend(S, stack, n);
          } else {
            assert n == T[j - p];
          }
        }
      }
    }
  }

  /** Every edge out of the completed component ends in it or in an earlier component. */
  lemma PopClosed(succ: Successors, stack: seq<nat>, visited: map<nat, nat>,
                  output: seq<seq<nat>>, active: set<nat>, p: nat)
    requires p < |stack| && NoDup(stack)
    requires forall k :: 0 <= k < |stack| && stack[k] !in active + {stack[p]} ==>
      Finished(succ, stack, visited, output, k)
    requires forall a :: a in active ==> a in stack[..p]
    requires forall k :: p < k < |stack| ==> stack[k] in visited && p <= visited[stack[k]]
    requires forall n :: n in succ(stack[p]) ==> Settled(n, stack, p, output)
    ensures forall x, n :: x in stack[p..] && n in succ(x) ==> n in Flatten(output) + stack[p..]
  {
    var T := stack[p..];
    forall x, n | x in T && n in succ(x) ensures n in Flatten(output) + T {
      var k := p + FirstIndex(T, x);
      assert stack[k] == x;
      var low := if k == p then p else visited[stack[k]];
      if k > p {
        assert stack[k] !in active + {stack[p]} by {
          assert stack[k] !in stack[..p];
        }
        assert Finished(succ, stack, visited, output, k);
      }
      assert Settled(n, stack, low, output);
      if n !in Flatten(output) {
        assert n == T[FirstIndex(stack, n) - p];
      }
    }
  }

  /** The completed component is strongly connected: the root reaches every node above it,
      and every node above it reaches back to the root through its low links. */
  lemma PopConnected(succ: Successors, stack: seq<nat>, visited: map<nat, nat>, p: nat)
    requires p < |stack| && LowLinks(succ, stack, visited)
    requires forall k :: p < k < |stack| ==> stack[k] in visited && p <= visited[stack[k]] < k
    requires forall k :: p <= k < |stack| ==> Reach(succ, stack[p], stack[k])
    ensures forall x, y :: x in stack[p..] && y in stack[p..] ==> Reach(succ, x, y)
  {
    forall x, y | x in stack[p..] && y in stack[p..] ensures Reach(succ, x, y) {
      ReachRoot(succ, stack, visited, p, x);
      ReachRoot(succ, stack, visited, p, y);
      ReachTrans(succ, x, stack[p], y);
    }
  }

  /** Every node above the root of a component reaches the root and back. */
  lemma ReachRoot(succ: Successors, stack: seq<nat>, visited: map<nat, nat>, p: nat, x: nat)
    requires p < |stack| && LowLinks(succ, stack, visited)
    requires forall k :: p < k < |stack| ==> stack[k] in visited && p <= visited[stack[k]] < k
    requires forall k :: p <= k < |stack| ==> Reach(succ, stack[p], stack[k])
    requires x in stack[p..]
    ensures Reach(succ, x, stack[p]) && Reach(succ, stack[p], x)
  {
    var T := stack[p..];
    var k := p + FirstIndex(T, x);
    assert stack[k] == x;
    ReachBack(succ, stack, visited, p, k);
  }

  lemma PopEmitted(succ: Successors, output: seq<seq<nat>>, T: seq<nat>)
    requires Emitted(succ, output)
    requires forall x, n :: x in T && n in succ(x) ==> n in Flatten(output) + T
    requires forall x, y :: x in T && y in T ==> Reach(succ, x, y)
    ensures Emitted(succ, output + [T])
  {
    PopEdges(succ, output, T);
    PopConnectedBlocks(succ, output, T);
  }

  lemma PopEdges(succ: Successors, output: seq<seq<nat>>, T: seq<nat>)
    requires forall i, x, n :: 0 <= i < |output| && x in output[i] && n in succ(x) ==> n in Flatten(output[..i + 1])
    requires forall x, n :: x in T && n in succ(x) ==> n in Flatten(output) + T
    ensures forall i, x, n :: 0 <= i < |output + [T]| && x in (output + [T])[i] && n in succ(x) ==>
      n in Flatten((output + [T])[..i + 1])
  {
    var O := output + [T];
    FlattenAppend(output, T);
    forall i, x, n | 0 <= i < |O| && x in O[i] && n in succ(x)
      ensures n in Flatten(O[..i + 1])
    {
      if i < |output| {
        assert O[i] == output[i];
        assert O[..i + 1] == output[..i + 1];
      } else {
        assert O[..i + 1] == O;
      }
    }
  }

  lemma PopConnectedBlocks(succ: Successors, output: seq<seq<nat>>, T: seq<nat>)
    requires forall i, x, y :: 0 <= i < |output| && x in output[i] && y in output[i] ==> Reach(succ, x, y)
    requires forall x, y :: x in T && y in T ==> Reach(succ, x, y)
    ensures forall i, x, y :: 0 <= i < |output + [T]| && x in (output + [T])[i] && y in (output + [T])[i] ==>
      Reach(succ, x, y)
  {
    var O := output + [T];
    forall i, x, y | 0 <= i < |O| && x in O[i] && y in O[i] ensures Reach(succ, x, y) {
      if i < |output| {
        assert O[i] == output[i];
      }
    }
  }

  /** An active node whose successors are all settled, and whose low link points below
      it, becomes finished. */
  lemma FinishKeepsInv(succ: Successors, U: set<nat>, stack: seq<nat>, visited: map<nat, nat>,
                       output: seq<seq<nat>>, active: set<nat>, p: nat)
    requires p < |stack|
    requires Inv(succ, U, stack, visited, output, active + {stack[p]})
    requires visited[stack[p]] < p
    requires forall n :: n in succ(stack[p]) ==> Settled(n, stack, visited[stack[p]], output)
    ensures Inv(succ, U, stack, visited, output, active)
  {
    assert Finished(succ, stack, visited, output, p);
  }

  // ---------------------------------------------------------------------------
  // One call of `strongconnect`, round by round

  function Min(a: nat, b: nat): nat {
    if a <= b then a else b
  }

  /** `visited` keeps every entry of `visited0` unchanged. */
  ghost predicate Extends(visited0: map<nat, nat>, visited: map<nat, nat>) {
    forall x :: x in visited0 ==> x in visited && visited[x] == visited0[x]
  }

  /** Every node visited since `visited0` is reachable from `node`. */
  ghost predicate Descendants(succ: Successors, node: nat, visited0: map<nat, nat>, visited: map<nat, nat>) {
    forall x :: x in visited && x !in visited0 ==> Reach(succ, node, x)
  }

  /** The nodes from stack position `p` up have low links no lower than `node`'s. */
  ghost predicate AboveRoot(p: nat, node: nat, stack: seq<nat>, visited: map<nat, nat>) {
    node in visited &&
    forall k :: p <= k < |stack| ==> stack[k] in visited && visited[node] <= visited[stack[k]]
  }

  ghost predicate AllSettled(done: seq<nat>, stack: seq<nat>, low: nat, output: seq<seq<nat>>) {
    forall n :: n in done ==> Settled(n, stack, low, output)
  }

  /** What `strongconnect(node)` promises about its result `stack1`, `visited1`, `output1`
      besides the search invariant, when entered with `stack0`, `visited0`, `output0`. */
  ghost predicate Returned(succ: Successors, node: nat,
                           stack0: seq<nat>, visited0: map<nat, nat>, output0: seq<seq<nat>>,
                           stack1: seq<nat>, visited1: map<nat, nat>, output1: seq<seq<nat>>) {
    |stack0| <= |stack1| && stack1[..|stack0|] == stack0 &&
    |output0| <= |output1| && output1[..|output0|] == output0 &&
    Extends(visited0, visited1) && node in visited1 &&
    Descendants(succ, node, visited0, visited1) &&
    (|stack1| == |stack0| ==> visited1[node] == |stack0|) &&
    (|stack1| > |stack0| ==>
       stack1[|stack0|] == node && visited1[node] < |stack0| && AboveRoot(|stack0|, node, stack1, visited1))
  }

  ghost predicate Searched(succ: Successors, U: set<nat>, active: set<nat>, node: nat,
                           stack0: seq<nat>, visited0: map<nat, nat>, output0: seq<seq<nat>>,
                           stack1: seq<nat>, visited1: map<nat, nat>, output1: seq<seq<nat>>) {
    Inv(succ, U, stack1, visited1, output1, active) &&
    Returned(succ, node, stack0, visited0, output0, stack1, visited1, output1)
  }

  /** The entry state's visited nodes are its stack and its completed components. */
  ghost predicate EntryVisited(stack0: seq<nat>, visited0: map<nat, nat>, output0: seq<seq<nat>>) {
    forall x :: x in visited0 ==> x in stack0 || x in Flatten(output0)
  }

  ghost predicate ActiveIn(active: set<nat>, stack0: seq<nat>) {
    forall a :: a in active ==> a in stack0
  }

  /** `node` sits on the stack right above the untouched entry stack, and the completed
      components of the entry state are still the first ones. */
  ghost predicate Prefixes(node: nat, stack0: seq<nat>, output0: seq<seq<nat>>,
                           stack: seq<nat>, output: seq<seq<nat>>) {
    |stack| > |stack0| && stack[..|stack0|] == stack0 && stack[|stack0|] == node &&
    |output| >= |output0| && output[..|output0|] == output0
  }

  /** `node` was not visited on entry, its low link is at most its position `p`, and
      the low links recorded before the call are unchanged. */
  ghost predicate Owned(node: nat, p: nat, visited0: map<nat, nat>, visited: map<nat, nat>) {
    Extends(visited0, visited) && node in visited && node !in visited0 && visited[node] <= p
  }

  /** The state of `strongconnect(node)`, entered with `stack0`, `visited0`, `output0`,
      after it has processed the successors listed in `done`. */
  ghost predicate Round(succ: Successors, U: set<nat>, stack0: seq<nat>, visited0: map<nat, nat>,
                        output0: seq<seq<nat>>, active: set<nat>, node: nat, done: seq<nat>,
                        stack: seq<nat>, visited: map<nat, nat>, output: seq<seq<nat>>) {
    Inv(succ, U, stack, visited, output, active + {node}) &&
    EntryVisited(stack0, visited0, output0) &&
    ActiveIn(active, stack0) &&
    Prefixes(node, stack0, output0, stack, output) &&
    Owned(node, |stack0|, visited0, visited) &&
    AboveRoot(|stack0|, node, stack, visited) &&
    Descendants(succ, node, visited0, visited) &&
    AllSettled(done, stack, visited[node], output)
  }

  lemma RoundStart(succ: Successors, U: set<nat>, stack0: seq<nat>, visited0: map<nat, nat>,
                   output0: seq<seq<nat>>, active: set<nat>, node: nat)
    requires Inv(succ, U, stack0, visited0, output0, active)
    requires forall a :: a in active ==> a in stack0
    requires node in U && node !in visited0
    ensures Round(succ, U, stack0, visited0, output0, active, node, [],
                  stack0 + [node], visited0[node := |stack0|], output0)
  {
    PushKeepsInv(succ, U, stack0, visited0, output0, active, node);
    StartFrame(succ, stack0, visited0, output0, node);
  }

  /** The parts of `Round` besides the invariant, right after `node` is pushed. */
  lemma StartFrame(succ: Successors, stack0: seq<nat>, visited0: map<nat, nat>, output0: seq<seq<nat>>, node: nat)
    requires forall x :: x in visited0 <==> x in stack0 || x in Flatten(output0)
    requires node !in visited0
    ensures EntryVisited(stack0, visited0, output0)
    ensures Prefixes(node, stack0, output0, stack0 + [node], output0)
    ensures Owned(node, |stack0|, visited0, visited0[node := |stack0|])
    ensures AboveRoot(|stack0|, node, stack0 + [node], visited0[node := |stack0|])
    ensures Descendants(succ, node, visited0, visited0[node := |stack0|])
    ensures AllSettled([], stack0 + [node], |stack0|, output0)
  {
    ReachRefl(succ, node);
    assert (stack0 + [node])[..|stack0|] == stack0;
    assert output0[..|output0|] == output0;
  }

  /** The nested call can be made, and it visits at least one more node. */
  lemma RoundMeasure(succ: Successors, U: set<nat>, stack0: seq<nat>, visited0: map<nat, nat>,
                     output0: seq<seq<nat>>, active: set<nat>, node: nat, done: seq<nat>,
                     stack: seq<nat>, visited: map<nat, nat>, output: seq<seq<nat>>)
    requires Round(succ, U, stack0, visited0, output0, active, node, done, stack, visited, output)
    ensures |visited0.Keys| < |visited.Keys| <= |U|
    ensures forall a :: a in active + {node} ==> a in stack
  {
    MeasureKeys(node, |stack0|, visited0, visited, U);
    ActiveOnStack(active, node, stack0, output0, stack, output);
  }

  lemma MeasureKeys(node: nat, p: nat, visited0: map<nat, nat>, visited: map<nat, nat>, U: set<nat>)
    requires Owned(node, p, visited0, visited) && visited.Keys <= U
    ensures |visited0.Keys| < |visited.Keys| <= |U|
  {
    SubsetCard(visited0.Keys + {node}, visited.Keys);
    SubsetCard(visited.Keys, U);
  }

  lemma ActiveOnStack(active: set<nat>, node: nat, stack0: seq<nat>, output0: seq<seq<nat>>,
                      stack: seq<nat>, output: seq<seq<nat>>)
    requires ActiveIn(active, stack0) && Prefixes(node, stack0, output0, stack, output)
    ensures forall a :: a in active + {node} ==> a in stack
  {
    forall a | a in active ensures a in stack {
      assert stack[FirstIndex(stack0, a)] == a;
    }
  }

  // A successor that was not visited yet has been searched by a nested call; the node's
  // low link takes the minimum with the successor's.

  lemma RoundTreeEdge(succ: Successors, U: set<nat>, stack0: seq<nat>, visited0: map<nat, nat>,
                      output0: seq<seq<nat>>, active: set<nat>, node: nat, done: seq<nat>, n: nat,
                      stack1: seq<nat>, visited1: map<nat, nat>, output1: seq<seq<nat>>,
                      stack2: seq<nat>, visited2: map<nat, nat>, output2: seq<seq<nat>>)
    requires Round(succ, U, stack0, visited0, output0, active, node, done, stack1, visited1, output1)
    requires n in succ(node) && n !in visited1
    requires Searched(succ, U, active + {node}, n, stack1, visited1, output1, stack2, visited2, output2)
    ensures node in visited2
    ensures Round(succ, U, stack0, visited0, output0, active, node, done + [n],
                  stack2, visited2[node := Min(visited2[node], visited2[n])], output2)
  {
    var p := |stack0|;
    TreeEdgeInv(succ, U, active, node, n, p, stack1, visited1, stack2, visited2, output2);
    TreeEdgePrefixes(node, stack0, output0, stack1, output1, stack2, output2);
    TreeEdgeOwned(node, p, n, visited0, visited1, visited2);
    TreeEdgeAbove(node, p, n, stack1, visited1, stack2, visited2);
    TreeEdgeDescendants(succ, node, n, visited0, visited1, visited2);
    TreeEdgeSettled(U, node, n, done, stack1, visited1, output1, stack2, visited2, output2);
  }

  lemma TreeEdgeInv(succ: Successors, U: set<nat>, active: set<nat>, node: nat, n: nat, p: nat,
                    stack1: seq<nat>, visited1: map<nat, nat>,
                    stack2: seq<nat>, visited2: map<nat, nat>, output2: seq<seq<nat>>)
    requires p < |stack1| && stack1[p] == node && node in visited1 && visited1[node] <= p
    requires n in succ(node)
    requires Inv(succ, U, stack2, visited2, output2, active + {node})
    requires |stack1| <= |stack2| && stack2[..|stack1|] == stack1
    requires Extends(visited1, visited2) && n in visited2
    requires |stack2| == |stack1| ==> visited2[n] == |stack1|
    requires |stack2| > |stack1| ==> stack2[|stack1|] == n && visited2[n] < |stack1|
    ensures node in visited2
    ensures Inv(succ, U, stack2, visited2[node := Min(visited2[node], visited2[n])], output2, active + {node})
  {
    var low := Min(visited2[node], visited2[n]);
    assert stack2[p] == stack1[p];
    assert Reach(succ, stack2[p], stack2[visited2[stack2[p]]]);
    if |stack2| > |stack1| && visited2[n] < visited2[node] {
      assert Reach(succ, stack2[|stack1|], stack2[visited2[stack2[|stack1|]]]);
      ReachEdge(succ, node, n);
      ReachTrans(succ, node, n, stack2[visited2[n]]);
    }
    LowerKeepsInv(succ, U, stack2, visited2, output2, active + {node}, p, low);
  }

  lemma TreeEdgePrefixes(node: nat, stack0: seq<nat>, output0: seq<seq<nat>>,
                         stack1: seq<nat>, output1: seq<seq<nat>>,
                         stack2: seq<nat>, output2: seq<seq<nat>>)
    requires Prefixes(node, stack0, output0, stack1, output1)
    requires |stack1| <= |stack2| && stack2[..|stack1|] == stack1
    requires |output1| <= |output2| && output2[..|output1|] == output1
    ensures Prefixes(node, stack0, output0, stack2, output2)
  {
    var p := |stack0|;
    assert stack2[..p] == stack1[..p] && stack2[p] == stack1[p];
    assert output2[..|output0|] == output1[..|output0|];
  }

  lemma TreeEdgeOwned(node: nat, p: nat, n: nat, visited0: map<nat, nat>,
                      visited1: map<nat, nat>, visited2: map<nat, nat>)
    requires Owned(node, p, visited0, visited1)
    requires Extends(visited1, visited2) && n in visited2
    ensures node in visited2
    ensures Owned(node, p, visited0, visited2[node := Min(visited2[node], visited2[n])])
  {
  }

  lemma TreeEdgeAbove(node: nat, p: nat, n: nat, stack1: seq<nat>, visited1: map<nat, nat>,
                      stack2: seq<nat>, visited2: map<nat, nat>)
    requires AboveRoot(p, node, stack1, visited1)
    requires p < |stack1| && stack1[p] == node && NoDup(stack2)
    requires |stack1| <= |stack2| && stack2[..|stack1|] == stack1
    requires Extends(visited1, visited2) && n in visited2
    requires |stack2| > |stack1| ==> AboveRoot(|stack1|, n, stack2, visited2)
    ensures node in visited2
    ensures AboveRoot(p, node, stack2, visited2[node := Min(visited2[node], visited2[n])])
  {
    var low := Min(visited2[node], visited2[n]);
    var V := visited2[node := low];
    forall k | p <= k < |stack2| ensures stack2[k] in V && low <= V[stack2[k]] {
      if k > p {
        assert stack2[k] != node by {
          assert stack2[p] == stack1[p];
          FirstIndexOfDistinct(stack2, k);
          FirstIndexOfDistinct(stack2, p);
        }
        if k < |stack1| {
          assert stack2[k] == stack1[k];
        }
      }
    }
  }

  lemma TreeEdgeDescendants(succ: Successors, node: nat, n: nat, visited0: map<nat, nat>,
                            visited1: map<nat, nat>, visited2: map<nat, nat>)
    requires Descendants(succ, node, visited0, visited1) && node in visited1
    requires n in succ(node)
    requires Extends(visited1, visited2) && n in visited2 && Descendants(succ, n, visited1, visited2)
    ensures node in visited2
    ensures Descendants(succ, node, visited0, visited2[node := Min(visited2[node], visited2[n])])
  {
    ReachEdge(succ, node, n);
    forall x | x in visited2 && x !in visited0 ensures Reach(succ, node, x) {
      if x !in visited1 {
        ReachTrans(succ, node, n, x);
      }
    }
  }

  lemma TreeEdgeSettled(U: set<nat>, node: nat, n: nat, done: seq<nat>,
                        stack1: seq<nat>, visited1: map<nat, nat>, output1: seq<seq<nat>>,
                        stack2: seq<nat>, visited2: map<nat, nat>, output2: seq<seq<nat>>)
    requires node in visited1 && n !in visited1
    requires AllSettled(done, stack1, visited1[node], output1)
    requires Partition(U, stack1, visited1, output1) && Partition(U, stack2, visited2, output2)
    requires |stack1| <= |stack2| && stack2[..|stack1|] == stack1
    requires |output1| <= |output2| && output2[..|output1|] == output1
    requires Extends(visited1, visited2) && n in visited2
    requires |stack2| > |stack1| ==> stack2[|stack1|] == n && visited2[n] < |stack1|
    requires visited1[node] < |stack1|
    ensures AllSettled(done + [n], stack2, Min(visited2[node], visited2[n]), output2)
  {
    var low := Min(visited2[node], visited2[n]);
    forall m | m in done + [n] ensures Settled(m, stack2, low, output2) {
      if m in done {
        assert Settled(m, stack1, visited1[node], output1);
        SettledGrow(m, stack1, stack2, visited1[node], output1, output2);
      } else if |stack2| > |stack1| {
        FirstIndexOfDistinct(stack2, |stack1|);
      } else {
        assert stack2 == stack1;
      }
    }
  }

  /** A successor on the stack lowers the node's low link to its position. */
  lemma RoundBackEdge(succ: Successors, U: set<nat>, stack0: seq<nat>, visited0: map<nat, nat>,
                      output0: seq<seq<nat>>, active: set<nat>, node: nat, done: seq<nat>, n: nat,
                      stack: seq<nat>, visited: map<nat, nat>, output: seq<seq<nat>>)
    requires Round(succ, U, stack0, visited0, output0, active, node, done, stack, visited, output)
    requires n in succ(node) && n in stack
    ensures Round(succ, U, stack0, visited0, output0, active, node, done + [n],
                  stack, visited[node := Min(visited[node], FirstIndex(stack, n))], output)
  {
    var p := |stack0|;
    var low := Min(visited[node], FirstIndex(stack, n));
    BackEdgeInv(succ, U, active, node, n, p, stack, visited, output);
    BackEdgeOwned(node, p, visited0, visited, low);
    BackEdgeAbove(node, p, stack, visited, low);
    BackEdgeSettled(node, n, done, stack, visited, output);
  }

  lemma BackEdgeInv(succ: Successors, U: set<nat>, active: set<nat>, node: nat, n: nat, p: nat,
                    stack: seq<nat>, visited: map<nat, nat>, output: seq<seq<nat>>)
    requires Inv(succ, U, stack, visited, output, active + {node})
    requires p < |stack| && stack[p] == node && node in visited && visited[node] <= p
    requires n in succ(node) && n in stack
    ensures Inv(succ, U, stack, visited[node := Min(visited[node], FirstIndex(stack, n))], output, active + {node})
  {
    var low := Min(visited[node], FirstIndex(stack, n));
    assert Reach(succ, stack[p], stack[visited[stack[p]]]);
    ReachEdge(succ, node, n);
    LowerKeepsInv(succ, U, stack, visited, output, active + {node}, p, low);
  }

  lemma BackEdgeOwned(node: nat, p: nat, visited0: map<nat, nat>, visited: map<nat, nat>, low: nat)
    requires Owned(node, p, visited0, visited) && low <= visited[node]
    ensures Owned(node, p, visited0, visited[node := low])
  {
  }

  lemma BackEdgeAbove(node: nat, p: nat, stack: seq<nat>, visited: map<nat, nat>, low: nat)
    requires AboveRoot(p, node, stack, visited) && low <= visited[node]
    requires p < |stack| && stack[p] == node && NoDup(stack)
    ensures AboveRoot(p, node, stack, visited[node := low])
  {
    var V := visited[node := low];
    forall k | p <= k < |stack| ensures stack[k] in V && V[node] <= V[stack[k]] {
      if k > p {
        assert stack[k] != node by {
          FirstIndexOfDistinct(stack, k);
          FirstIndexOfDistinct(stack, p);
        }
      }
    }
  }

  lemma BackEdgeSettled(node: nat, n: nat, done: seq<nat>, stack: seq<nat>, visited: map<nat, nat>,
                        output: seq<seq<nat>>)
    requires node in visited && AllSettled(done, stack, visited[node], output)
    requires n in stack
    ensures AllSettled(done + [n], stack, Min(visited[node], FirstIndex(stack, n)), output)
  {
    var low := Min(visited[node], FirstIndex(stack, n));
    forall m | m in done + [n] ensures Settled(m, stack, low, output) {
      if m in done {
        assert Settled(m, stack, visited[node], output);
      }
    }
  }

  /** A successor already in a completed component changes nothing. */
  lemma RoundCrossEdge(succ: Successors, U: set<nat>, stack0: seq<nat>, visited0: map<nat, nat>,
                       output0: seq<seq<nat>>, active: set<nat>, node: nat, done: seq<nat>, n: nat,
                       stack: seq<nat>, visited: map<nat, nat>, output: seq<seq<nat>>)
    requires Round(succ, U, stack0, visited0, output0, active, node, done, stack, visited, output)
    requires n in visited && n !in stack
    ensures Round(succ, U, stack0, visited0, output0, active, node, done + [n], stack, visited, output)
  {
    CrossEdgeSettled(U, node, n, done, stack, visited, output);
  }

  lemma CrossEdgeSettled(U: set<nat>, node: nat, n: nat, done: seq<nat>, stack: seq<nat>,
                         visited: map<nat, nat>, output: seq<seq<nat>>)
    requires node in visited && AllSettled(done, stack, visited[node], output)
    requires Partition(U, stack, visited, output) && n in visited && n !in stack
    ensures AllSettled(done + [n], stack, visited[node], output)
  {
    forall m | m in done + [n] ensures Settled(m, stack, visited[node], output) {
      if m in done {
        assert Settled(m, stack, visited[node], output);
      }
    }
  }

  /** After the last successor, a node whose low link is its own position completes
      its component: the call ends with the entry stack and one more component. */
  lemma RoundPop(succ: Successors, U: set<nat>, stack0: seq<nat>, visited0: map<nat, nat>,
                 output0: seq<seq<nat>>, active: set<nat>, node: nat,
                 stack: seq<nat>, visited: map<nat, nat>, output: seq<seq<nat>>)
    requires Round(succ, U, stack0, visited0, output0, active, node, succ(node), stack, visited, output)
    requires visited[node] == |stack0|
    ensures Searched(succ, U, active, node, stack0, visited0, output0,
                     stack[..|stack0|], visited, output + [stack[|stack0|..]])
  {
    var p := |stack0|;
    PopReach(U, succ, node, stack0, visited0, output0, stack, visited, output);
    PopActive(active, node, stack0, output0, stack, output);
    PopSettled(succ, node, stack, visited, output);
    PopKeepsInv(succ, U, stack, visited, output, active, p);
    PopReturned(succ, node, stack0, visited0, output0, stack, visited, output);
  }

  lemma PopActive(active: set<nat>, node: nat, stack0: seq<nat>, output0: seq<seq<nat>>,
                  stack: seq<nat>, output: seq<seq<nat>>)
    requires ActiveIn(active, stack0) && Prefixes(node, stack0, output0, stack, output)
    ensures forall a :: a in active ==> a in stack[..|stack0|]
  {
  }

  lemma PopSettled(succ: Successors, node: nat, stack: seq<nat>, visited: map<nat, nat>,
                   output: seq<seq<nat>>)
    requires node in visited && AllSettled(succ(node), stack, visited[node], output)
    ensures forall m :: m in succ(node) ==> Settled(m, stack, visited[node], output)
  {
  }

  lemma PopReturned(succ: Successors, node: nat, stack0: seq<nat>, visited0: map<nat, nat>,
                    output0: seq<seq<nat>>, stack: seq<nat>, visited: map<nat, nat>,
                    output: seq<seq<nat>>)
    requires Prefixes(node, stack0, output0, stack, output)
    requires Owned(node, |stack0|, visited0, visited) && visited[node] == |stack0|
    requires Descendants(succ, node, visited0, visited)
    ensures Returned(succ, node, stack0, visited0, output0,
                     stack[..|stack0|], visited, output + [stack[|stack0|..]])
  {
    assert (output + [stack[|stack0|..]])[..|output0|] == output[..|output0|];
  }

  /** Every node on the stack above the entry stack was visited during the call. */
  lemma PopReach(U: set<nat>, succ: Successors, node: nat, stack0: seq<nat>, visited0: map<nat, nat>,
                 output0: seq<seq<nat>>, stack: seq<nat>, visited: map<nat, nat>, output: seq<seq<nat>>)
    requires Partition(U, stack, visited, output)
    requires EntryVisited(stack0, visited0, output0)
    requires Prefixes(node, stack0, output0, stack, output)
    requires Descendants(succ, node, visited0, visited)
    ensures forall k :: |stack0| <= k < |stack| ==> Reach(succ, stack[|stack0|], stack[k])
  {
    var p := |stack0|;
    FlattenExtend(output0, output);
    forall k | p <= k < |stack| ensures Reach(succ, node, stack[k]) {
      if k > p {
        assert stack[k] !in stack0 by {
          FirstIndexOfDistinct(stack, k);
        }
        assert stack[k] !in Flatten(output);
        assert stack[k] !in Flatten(output0);
      } else {
        ReachRefl(succ, node);
      }
    }
  }

  /** After the last successor, a node whose low link points below it stays on the
      stack, finished. */
  lemma RoundKeep(succ: Successors, U: set<nat>, stack0: seq<nat>, visited0: map<nat, nat>,
                  output0: seq<seq<nat>>, active: set<nat>, node: nat,
                  stack: seq<nat>, visited: map<nat, nat>, output: seq<seq<nat>>)
    requires Round(succ, U, stack0, visited0, output0, active, node, succ(node), stack, visited, output)
    requires visited[node] != |stack0|
    ensures Searched(succ, U, active, node, stack0, visited0, output0, stack, visited, output)
  {
    PopSettled(succ, node, stack, visited, output);
    FinishKeepsInv(succ, U, stack, visited, output, active, |stack0|);
    KeepReturned(succ, node, stack0, visited0, output0, stack, visited, output);
  }

  lemma KeepReturned(succ: Successors, node: nat, stack0: seq<nat>, visited0: map<nat, nat>,
                     output0: seq<seq<nat>>, stack: seq<nat>, visited: map<nat, nat>,
                     output: seq<seq<nat>>)
    requires Prefixes(node, stack0, output0, stack, output)
    requires Owned(node, |stack0|, visited0, visited) && visited[node] != |stack0|
    requires AboveRoot(|stack0|, node, stack, visited)
    requires Descendants(succ, node, visited0, visited)
    ensures Returned(succ, node, stack0, visited0, output0, stack, visited, output)
  {
  }

  // ---------------------------------------------------------------------------
  // `strongconnect`

  /** `strongconnect`: visits `node` and everything reachable from it that is not yet
      visited, completing every component whose root it meets. On return, either
      `node` completed its own component and the stack is back to what it was, or
      `node` stays on the stack with a low link pointing below its entry position. */
  method StrongConnect(succ: Successors, stack: seq<nat>, visited: map<nat, nat>,
                       output: seq<seq<nat>>, node: nat, ghost U: set<nat>, ghost active: set<nat>)
    returns (stack': seq<nat>, visited': map<nat, nat>, output': seq<seq<nat>>)
    requires ClosedUnder(succ, U) && node in U && node !in visited
    requires Inv(succ, U, stack, visited, output, active)
    requires forall a :: a in active ==> a in stack
    ensures Searched(succ, U, active, node, stack, visited, output, stack', visited', output')
    decreases |U| - |visited.Keys|
  {
    ghost var p := |stack|;
    var pushed := InsertFull(stack, node);
    stack' := pushed.0;
    var index := pushed.1;
    visited' := visited[node := index];
    output' := output;
    RoundStart(succ, U, stack, visited, output, active, node);

    var successors := succ(node);
    var i := 0;
    while i < |successors|
      invariant 0 <= i <= |successors|
      invariant Round(succ, U, stack, visited, output, active, node, successors[..i], stack', visited', output')
    {
      var n := successors[i];
      PrefixSnoc(successors, i);
      if n !in visited' {
        ghost var stack1, visited1, output1 := stack', visited', output';
        RoundMeasure(succ, U, stack, visited, output, active, node, successors[..i], stack', visited', output');
        stack', visited', output' := StrongConnect(succ, stack', visited', output', n, U, active + {node});
        RoundTreeEdge(succ, U, stack, visited, output, active, node, successors[..i], n,
                      stack1, visited1, output1, stack', visited', output');
        var y := visited'[n];
        visited' := visited'[node := Min(visited'[node], y)];
      } else if IndexOf(stack', n).Some? {
        var index := IndexOf(stack', n).value;
        RoundBackEdge(succ, U, stack, visited, output, active, node, successors[..i], n, stack', visited', output');
        visited' := visited'[node := Min(visited'[node], index)];
      } else {
        RoundCrossEdge(succ, U, stack, visited, output, active, node, successors[..i], n, stack', visited', output');
      }
      i := i + 1;
    }
    assert successors[..i] == successors;

    FirstIndexOfDistinct(stack', p);
    if Some(visited'[node]) == IndexOf(stack', node) {
      RoundPop(succ, U, stack, visited, output, active, node, stack', visited', output');
      var component := stack'[visited'[node]..];
      stack' := stack'[..visited'[node]];
      output' := output' + [component];
    } else {
      RoundKeep(succ, U, stack, visited, output, active, node, stack', visited', output');
    }
  }

  // ---------------------------------------------------------------------------
  // `tarjans`

  /** A node never reaches a node placed after it unless the two are in one component:
      every edge points back to the node's own component or an earlier one. */
  ghost predicate ReverseTopological(succ: Successors, r: seq<nat>) {
    forall i, j :: 0 <= i < j < |r| && Reach(succ, r[i], r[j]) ==> Reach(succ, r[j], r[i])
  }

  /** The nodes of each strongly connected component sit next to each other. */
  ghost predicate Contiguous(succ: Successors, r: seq<nat>) {
    forall i, j, k :: 0 <= i < j < k < |r| && SameScc(succ, r[i], r[k]) ==> SameScc(succ, r[i], r[j])
  }

  /** Inside a component, nodes keep the order of their first occurrence in `xs`. */
  ghost predicate SccOrdered(succ: Successors, r: seq<nat>, xs: seq<nat>) {
    (forall x :: x in r ==> x in xs) &&
    forall i, j :: 0 <= i < j < |r| && SameScc(succ, r[i], r[j]) ==> FirstIndex(xs, r[i]) < FirstIndex(xs, r[j])
  }

  /** `sort_by_key(|x| ord.get_index_of(x))`, a stable sort: the nodes missing from `ord`
      (key `None`) first, in their own order, then the others in the order of `ord`. */
  function SortByOrder(comp: seq<nat>, ord: seq<nat>): (r: seq<nat>)
    ensures forall x :: x in r <==> x in comp
    ensures NoDup(comp) && NoDup(ord) ==> NoDup(r)
    ensures forall i, j :: 0 <= i < j < |r| && r[i] in ord ==> r[j] in ord
    ensures NoDup(ord) ==> forall i, j :: 0 <= i < j < |r| && r[i] in ord ==>
      FirstIndex(ord, r[i]) < FirstIndex(ord, r[j])
  {
    SortFacts(comp, ord);
    Missing(comp, ord) + Present(comp, ord)
  }

  /** The nodes of `comp` that have no position in `ord`, in their order in `comp`. */
  function Missing(comp: seq<nat>, ord: seq<nat>): (r: seq<nat>)
    ensures forall x :: x in r <==> x in comp && x !in ord
  {
    Filter(comp, x => x !in ord)
  }

  /** The nodes of `comp` that have a position in `ord`, in the order of `ord`. */
  function Present(comp: seq<nat>, ord: seq<nat>): (r: seq<nat>)
    ensures forall x :: x in r <==> x in comp && x in ord
  {
    Filter(ord, x => x in comp)
  }

  lemma SortFacts(comp: seq<nat>, ord: seq<nat>)
    ensures var r := Missing(comp, ord) + Present(comp, ord);
      (NoDup(comp) && NoDup(ord) ==> NoDup(r)) &&
      (forall i, j :: 0 <= i < j < |r| && r[i] in ord ==> r[j] in ord) &&
      (NoDup(ord) ==> forall i, j :: 0 <= i < j < |r| && r[i] in ord ==>
         FirstIndex(ord, r[i]) < FirstIndex(ord, r[j]))
  {
    var missing := Missing(comp, ord);
    var present := Present(comp, ord);
    SortedTail(missing, present, ord);
    if NoDup(ord) {
      FilterOrder(ord, x => x in comp);
    }
    if NoDup(comp) && NoDup(ord) {
      FilterNoDup(comp, x => x !in ord);
      FilterNoDup(ord, x => x in comp);
      NoDupAppend(missing, present);
    }
  }

  lemma SortedTail(missing: seq<nat>, present: seq<nat>, ord: seq<nat>)
    requires forall x :: x in missing ==> x !in ord
    requires forall x :: x in present ==> x in ord
    ensures forall i, j :: 0 <= i < j < |missing + present| && (missing + present)[i] in ord ==>
      (missing + present)[j] in ord
    ensures NoDup(ord) && FirstSeenOrder(present, ord) ==>
      forall i, j :: 0 <= i < j < |missing + present| && (missing + present)[i] in ord ==>
        FirstIndex(ord, (missing + present)[i]) < FirstIndex(ord, (missing + present)[j])
  {
    var r := missing + present;
    forall i, j | 0 <= i < j < |r| && r[i] in ord ensures r[j] in ord {
      assert i >= |missing|;
      assert r[j] == present[j - |missing|];
    }
    if NoDup(ord) && FirstSeenOrder(present, ord) {
      forall i, j | 0 <= i < j < |r| && r[i] in ord ensures FirstIndex(ord, r[i]) < FirstIndex(ord, r[j]) {
        assert i >= |missing|;
        assert r[i] == present[i - |missing|] && r[j] == present[j - |missing|];
        FirstSeenPair(present, ord, i - |missing|, j - |missing|);
      }
    }
  }

  lemma NoDupAppend(a: seq<nat>, b: seq<nat>)
    requires NoDup(a) && NoDup(b) && forall x :: x in a ==> x !in b
    ensures NoDup(a + b)
  {
    var r := a + b;
    forall i, j | 0 <= i < j < |r| ensures r[i] != r[j] {
      if j < |a| {
        assert r[i] == a[i] && r[j] == a[j];
      } else if i >= |a| {
        assert r[i] == b[i - |a|] && r[j] == b[j - |a|];
      } else {
        assert r[i] == a[i] && r[j] == b[j - |a|] && a[i] in a;
      }
    }
  }

  /** `tarjans`: a search from every listed node not yet visited, then every completed
      component sorted back into the order of `xs`. */
  method Tarjans(succ: Successors, xs: seq<nat>) returns (r: seq<nat>)
    requires ClosedUnder(succ, set x | x in xs)
    ensures NoDup(r) && forall x :: x in r <==> x in xs
    ensures ReverseTopological(succ, r)
    ensures Contiguous(succ, r)
    ensures SccOrdered(succ, r, xs)
  {
    var ord := Dedup(xs);
    DedupMembers(xs);
    DedupFirstSeen(xs);
    ghost var U := set x | x in xs;
    var visited, output := SearchAll(succ, U, ord);
    OutputCovers(U, xs, ord, visited, output);
    r := SortedComponents(output, ord, |output|);
    ghost var all := CollectAll(succ, U, xs, ord, visited, output, |output|);
    CollectedAll(succ, xs, output, r);
  }

  /** The first loop of `tarjans`: `strongconnect` from each unvisited node, with an empty
      stack each time. */
  method SearchAll(succ: Successors, ghost U: set<nat>, ord: seq<nat>)
    returns (visited: map<nat, nat>, output: seq<seq<nat>>)
    requires ClosedUnder(succ, U) && forall k :: 0 <= k < |ord| ==> ord[k] in U
    ensures Partition(U, [], visited, output) && Emitted(succ, output)
    ensures forall k :: 0 <= k < |ord| ==> ord[k] in visited
  {
    output := [];
    var stack: seq<nat> := [];
    visited := map[];
    var i := 0;
    while i < |ord|
      invariant 0 <= i <= |ord|
      invariant stack == []
      invariant Inv(succ, U, stack, visited, output, {})
      invariant forall k :: 0 <= k < i ==> ord[k] in visited
    {
      var x := ord[i];
      if x !in visited {
        stack, visited, output := StrongConnect(succ, stack, visited, output, x, U, {});
      }
      i := i + 1;
    }
  }

  lemma CollectedAll(succ: Successors, xs: seq<nat>, output: seq<seq<nat>>, r: seq<nat>)
    requires Collected(succ, xs, output, |output|, r) && forall x :: x in Flatten(output) <==> x in xs
    ensures NoDup(r) && forall x :: x in r <==> x in xs
    ensures ReverseTopological(succ, r) && Contiguous(succ, r) && SccOrdered(succ, r, xs)
  {
    assert output[..|output|] == output;
  }

  /** The `flat_map` that ends `tarjans`, over the first `c` components: each sorted by
      `ord`, one after the other. */
  function SortedComponents(output: seq<seq<nat>>, ord: seq<nat>, c: nat): seq<nat>
    requires c <= |output|
  {
    if c == 0 then [] else SortedComponents(output, ord, c - 1) + SortByOrder(output[c - 1], ord)
  }

  lemma {:induction false} CollectAll(succ: Successors, U: set<nat>, xs: seq<nat>, ord: seq<nat>,
                                      visited: map<nat, nat>, output: seq<seq<nat>>, c: nat)
    returns (r: seq<nat>)
    requires Partition(U, [], visited, output) && Emitted(succ, output)
    requires forall x :: x in Flatten(output) <==> x in xs
    requires NoDup(ord) && (forall x :: x in ord <==> x in xs) && FirstSeenOrder(ord, xs)
    requires c <= |output|
    ensures r == SortedComponents(output, ord, c)
    ensures Collected(succ, xs, output, c, r)
  {
    if c == 0 {
      CollectNone(succ, xs, output);
      r := [];
    } else {
      var prev := CollectAll(succ, U, xs, ord, visited, output, c - 1);
      CollectBlock(succ, U, xs, ord, visited, output, c - 1, prev);
      r := prev + SortByOrder(output[c - 1], ord);
    }
  }

  lemma CollectNone(succ: Successors, xs: seq<nat>, output: seq<seq<nat>>)
    ensures Collected(succ, xs, output, 0, [])
  {
    assert output[..0] == [];
  }

  /** `r` is the flattening of the first `c` sorted components. */
  ghost predicate Collected(succ: Successors, xs: seq<nat>, output: seq<seq<nat>>, c: nat, r: seq<nat>)
    requires c <= |output|
  {
    NoDup(r) && (forall x :: x in r <==> x in Flatten(output[..c])) &&
    ReverseTopological(succ, r) && Contiguous(succ, r) && SccOrdered(succ, r, xs)
  }

  lemma CollectBlock(succ: Successors, U: set<nat>, xs: seq<nat>, ord: seq<nat>,
                     visited: map<nat, nat>, output: seq<seq<nat>>, c: nat, r: seq<nat>)
    requires Partition(U, [], visited, output) && Emitted(succ, output)
    requires forall x :: x in Flatten(output) <==> x in xs
    requires NoDup(ord) && (forall x :: x in ord <==> x in xs) && FirstSeenOrder(ord, xs)
    requires c < |output| && Collected(succ, xs, output, c, r)
    ensures Collected(succ, xs, output, c + 1, r + SortByOrder(output[c], ord))
  {
    var block := SortByOrder(output[c], ord);
    BlockFacts(succ, U, xs, ord, visited, output, c);
    AppendBlock(succ, xs, r, block);
    FlattenSplit(output, c);
    NoDupAppend(r, block);
  }

  /** After the first loop the completed components hold exactly the listed nodes. */
  lemma OutputCovers(U: set<nat>, xs: seq<nat>, ord: seq<nat>, visited: map<nat, nat>,
                     output: seq<seq<nat>>)
    requires U == set x | x in xs
    requires forall x :: x in ord <==> x in xs
    requires Partition(U, [], visited, output)
    requires forall k :: 0 <= k < |ord| ==> ord[k] in visited
    ensures forall x :: x in Flatten(output) <==> x in xs
  {
    forall x | x in xs ensures x in Flatten(output) {
      assert ord[FirstIndex(ord, x)] == x;
    }
  }

  lemma FlattenSplit(output: seq<seq<nat>>, c: nat)
    requires c < |output|
    ensures Flatten(output[..c + 1]) == Flatten(output[..c]) + output[c]
    ensures |Flatten(output[..c + 1])| <= |Flatten(output)|
    ensures Flatten(output)[..|Flatten(output[..c + 1])|] == Flatten(output[..c + 1])
  {
    assert output[..c + 1][..c] == output[..c];
    FlattenExtend(output[..c + 1], output);
  }

  /** What the `c`-th completed component contributes once sorted. */
  lemma BlockFacts(succ: Successors, U: set<nat>, xs: seq<nat>, ord: seq<nat>,
                   visited: map<nat, nat>, output: seq<seq<nat>>, c: nat)
    requires Partition(U, [], visited, output) && Emitted(succ, output)
    requires forall x :: x in Flatten(output) <==> x in xs
    requires NoDup(ord) && (forall x :: x in ord <==> x in xs) && FirstSeenOrder(ord, xs)
    requires c < |output|
    ensures NoDup(SortByOrder(output[c], ord))
    ensures forall x :: x in SortByOrder(output[c], ord) <==> x in output[c]
    ensures forall x :: x in output[c] ==> x !in Flatten(output[..c])
    ensures forall a, b :: a in output[c] && b in output[c] ==> Reach(succ, a, b)
    ensures forall a, b :: a in Flatten(output[..c]) && b in output[c] ==> !Reach(succ, a, b)
    ensures FirstSeenOrder(SortByOrder(output[c], ord), xs)
  {
    FlattenSplit(output, c);
    BlockDistinct(output, c);
    NoReachBack(succ, output, c);
    var B := SortByOrder(output[c], ord);
    forall x | x in output[c] ensures x in ord {
      assert x in Flatten(output[..c + 1]);
      assert Flatten(output)[FirstIndex(Flatten(output[..c + 1]), x)] == x;
    }
    OrderCompose(B, ord, xs);
  }

  /** The `c`-th component has no repeated node and shares none with the earlier ones. */
  lemma BlockDistinct(output: seq<seq<nat>>, c: nat)
    requires NoDup(Flatten(output)) && c < |output|
    requires Flatten(output[..c + 1]) == Flatten(output[..c]) + output[c]
    requires |Flatten(output[..c + 1])| <= |Flatten(output)|
    requires Flatten(output)[..|Flatten(output[..c + 1])|] == Flatten(output[..c + 1])
    ensures NoDup(output[c])
    ensures forall x :: x in output[c] ==> x !in Flatten(output[..c])
  {
    var F := Flatten(output[..c + 1]);
    var P := Flatten(output[..c]);
    assert NoDup(F) by {
      forall i, j | 0 <= i < j < |F| ensures F[i] != F[j] {
        assert F[i] == Flatten(output)[i] && F[j] == Flatten(output)[j];
      }
    }
    forall i, j | 0 <= i < j < |output[c]| ensures output[c][i] != output[c][j] {
      assert output[c][i] == F[|P| + i] && output[c][j] == F[|P| + j];
    }
    forall x | x in output[c] ensures x !in P {
      var k := FirstIndex(output[c], x);
      assert F[|P| + k] == x;
      forall a | 0 <= a < |P| ensures P[a] != x {
        assert F[a] == P[a];
      }
    }
  }

  /** The completed components before the `c`-th are closed under successors, so none of
      their nodes reaches the `c`-th one. */
  lemma NoReachBack(succ: Successors, output: seq<seq<nat>>, c: nat)
    requires Emitted(succ, output) && c < |output|
    requires forall x :: x in output[c] ==> x !in Flatten(output[..c])
    ensures forall a, b :: a in Flatten(output[..c]) && b in output[c] ==> !Reach(succ, a, b)
  {
    var X := set x | x in Flatten(output[..c]);
    FlattenMembers(output[..c]);
    forall x, y | x in X && y in succ(x) ensures y in X {
      var i :| 0 <= i < c && x in output[..c][i];
      assert x in output[i];
      assert output[..c][..i + 1] == output[..i + 1];
      FlattenExtend(output[..i + 1], output[..c]);
      assert y in Flatten(output[..i + 1]);
      assert Flatten(output[..c])[FirstIndex(Flatten(output[..i + 1]), y)] == y;
    }
    forall a, b | a in Flatten(output[..c]) && b in output[c] ensures !Reach(succ, a, b) {
      if Reach(succ, a, b) {
        ReachStaysIn(succ, X, a, b);
      }
    }
  }

  /** Ordered by position in `ord`, which lists nodes in first-seen order of `xs`, means
      ordered by first occurrence in `xs`. */
  lemma OrderCompose(B: seq<nat>, ord: seq<nat>, xs: seq<nat>)
    requires forall x :: x in B ==> x in ord
    requires forall i, j :: 0 <= i < j < |B| && B[i] in ord ==> FirstIndex(ord, B[i]) < FirstIndex(ord, B[j])
    requires FirstSeenOrder(ord, xs)
    ensures FirstSeenOrder(B, xs)
  {
    forall i, j | 0 <= i < j < |B| ensures FirstIndex(xs, B[i]) < FirstIndex(xs, B[j]) {
      assert B[i] in B && B[j] in B;
      var a, b := FirstIndex(ord, B[i]), FirstIndex(ord, B[j]);
      assert a < b && ord[a] == B[i] && ord[b] == B[j];
      FirstSeenPair(ord, xs, a, b);
    }
  }

  /** Appending a strongly connected block that nothing before it reaches keeps the three
      ordering properties. */
  lemma AppendBlock(succ: Successors, xs: seq<nat>, r: seq<nat>, B: seq<nat>)
    requires ReverseTopological(succ, r) && Contiguous(succ, r) && SccOrdered(succ, r, xs)
    requires forall a, b :: a in B && b in B ==> Reach(succ, a, b)
    requires forall a, b :: a in r && b in B ==> !Reach(succ, a, b)
    requires FirstSeenOrder(B, xs)
    ensures ReverseTopological(succ, r + B) && Contiguous(succ, r + B) && SccOrdered(succ, r + B, xs)
  {
    AppendReverse(succ, r, B);
    AppendContiguous(succ, r, B);
    AppendOrdered(succ, xs, r, B);
  }

  lemma AppendReverse(succ: Successors, r: seq<nat>, B: seq<nat>)
    requires ReverseTopological(succ, r)
    requires forall a, b :: a in B && b in B ==> Reach(succ, a, b)
    requires forall a, b :: a in r && b in B ==> !Reach(succ, a, b)
    ensures ReverseTopological(succ, r + B)
  {
    var t := r + B;
    forall i, j | 0 <= i < j < |t| && Reach(succ, t[i], t[j]) ensures Reach(succ, t[j], t[i]) {
      if j < |r| {
        assert t[i] == r[i] && t[j] == r[j];
      } else if i >= |r| {
        assert t[i] == B[i - |r|] && t[j] == B[j - |r|];
      }
    }
  }

  lemma AppendContiguous(succ: Successors, r: seq<nat>, B: seq<nat>)
    requires Contiguous(succ, r)
    requires forall a, b :: a in B && b in B ==> Reach(succ, a, b)
    requires forall a, b :: a in r && b in B ==> !Reach(succ, a, b)
    ensures Contiguous(succ, r + B)
  {
    var t := r + B;
    forall i, j, k | 0 <= i < j < k < |t| && SameScc(succ, t[i], t[k]) ensures SameScc(succ, t[i], t[j]) {
      if k < |r| {
        assert t[i] == r[i] && t[j] == r[j] && t[k] == r[k];
      } else if i >= |r| {
        assert t[i] == B[i - |r|] && t[j] == B[j - |r|] && t[k] == B[k - |r|];
      }
    }
  }

  lemma AppendOrdered(succ: Successors, xs: seq<nat>, r: seq<nat>, B: seq<nat>)
    requires SccOrdered(succ, r, xs)
    requires forall a, b :: a in r && b in B ==> !Reach(succ, a, b)
    requires FirstSeenOrder(B, xs)
    ensures SccOrdered(succ, r + B, xs)
  {
    var t := r + B;
    forall i, j | 0 <= i < j < |t| && SameScc(succ, t[i], t[j])
      ensures FirstIndex(xs, t[i]) < FirstIndex(xs, t[j])
    {
      if j < |r| {
        assert t[i] == r[i] && t[j] == r[j];
      } else if i >= |r| {
        assert t[i] == B[i - |r|] && t[j] == B[j - |r|];
      }
    }
  }
}
