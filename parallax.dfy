/**
 * Hierarchical parallax: once every layer is loaded, a breadth-first pass
 * over the group layers multiplies each child's parallax factor by its
 * group's, so that a layer's factor becomes its own times those of all the
 * groups that contain it. The layer hierarchy is held as an arena: layer `i`
 * has a parent group (`-1` at top level), an ordered child list and a
 * group flag; the layers' factors are an array indexed the same way.
 */
module ParallaxPass {

  /** A layer's parallax factors along x and y. */
  datatype Factor = Factor(x: real, y: real)

  function Times(a: Factor, b: Factor): Factor {
    Factor(a.x * b.x, a.y * b.y)
  }

  datatype LayerTree = LayerTree(parent: seq<int>, children: seq<seq<nat>>, isGroup: seq<bool>, topLevel: seq<nat>)

  function Size(t: LayerTree): nat { |t.parent| }

  predicate Distinct(s: seq<nat>) {
    forall i, j :: 0 <= i < j < |s| ==> s[i] != s[j]
  }

  /**
   * The hierarchy the loader builds: parents are groups numbered before their
   * children, `children` lists exactly the layers whose parent a group is,
   * each once, and `topLevel` lists exactly the parentless layers, each once.
   */
  predicate WellFormed(t: LayerTree) {
    var n := Size(t);
    |t.children| == n && |t.isGroup| == n
    && (forall j :: 0 <= j < n ==> -1 <= t.parent[j] < j)
    && (forall j :: 0 <= j < n && t.parent[j] >= 0 ==> t.isGroup[t.parent[j]])
    && (forall i, k :: 0 <= i < n && 0 <= k < |t.children[i]| ==> t.children[i][k] < n && t.parent[t.children[i][k]] == i)
    && (forall j :: 0 <= j < n && t.parent[j] >= 0 ==> j in t.children[t.parent[j]])
    && (forall i :: 0 <= i < n ==> Distinct(t.children[i]))
    && (forall k :: 0 <= k < |t.topLevel| ==> t.topLevel[k] < n && t.parent[t.topLevel[k]] == -1)
    && (forall j :: 0 <= j < n && t.parent[j] == -1 ==> j in t.topLevel)
    && Distinct(t.topLevel)
  }

  /** The factor a layer ends with: its own, times its group's final factor if it has a group. */
  function Effective(t: LayerTree, declared: seq<Factor>, j: nat): Factor
    requires WellFormed(t) && |declared| == Size(t) && j < Size(t)
    decreases j
  {
    if t.parent[j] == -1 then declared[j] else Times(declared[j], Effective(t, declared, t.parent[j]))
  }

  /** A layer and its enclosing groups, innermost first. */
  function Ancestry(t: LayerTree, j: nat): (path: seq<nat>)
    requires WellFormed(t) && j < Size(t)
    ensures |path| >= 1 && path[0] == j
    ensures forall k :: 0 <= k < |path| ==> path[k] < Size(t)
    ensures t.parent[path[|path| - 1]] == -1
    ensures forall k :: 0 <= k < |path| - 1 ==> path[k + 1] == t.parent[path[k]]
    decreases j
  {
    if t.parent[j] == -1 then [j] else [j] + Ancestry(t, t.parent[j])
  }

  /** The product of the declared factors along a path. */
  function Product(declared: seq<Factor>, path: seq<nat>): Factor
    requires forall k :: 0 <= k < |path| ==> path[k] < |declared|
    decreases |path|
  {
    if path == [] then Factor(1.0, 1.0) else Times(declared[path[0]], Product(declared, path[1..]))
  }

  /** A layer's final factor is the product of its declared factor and those of all its enclosing groups. */
  lemma {:induction false} EffectiveIsProduct(t: LayerTree, declared: seq<Factor>, j: nat)
    requires WellFormed(t) && |declared| == Size(t) && j < Size(t)
    ensures Effective(t, declared, j) == Product(declared, Ancestry(t, j))
    decreases j
  {
    var path := Ancestry(t, j);
    if t.parent[j] == -1 {
      assert path == [j];
      assert Product(declared, path[1..]) == Factor(1.0, 1.0);
    } else {
      EffectiveIsProduct(t, declared, t.parent[j]);
      assert path[1..] == Ancestry(t, t.parent[j]);
    }
  }

  /** A layer outside every group keeps its declared factor. */
  lemma TopLevelUnchanged(t: LayerTree, declared: seq<Factor>, j: nat)
    requires WellFormed(t) && |declared| == Size(t) && j < Size(t)
    requires j in t.topLevel
    ensures Effective(t, declared, j) == declared[j]
  {
    var k :| 0 <= k < |t.topLevel| && t.topLevel[k] == j;
  }

  /** `getByType(MapGroupLayer.class)` on the top-level layers: the groups among them, in order. */
  function Groups(t: LayerTree, layers: seq<nat>): (r: seq<nat>)
    requires forall k :: 0 <= k < |layers| ==> layers[k] < |t.isGroup|
    ensures forall k :: 0 <= k < |r| ==> r[k] in layers && t.isGroup[r[k]]
    ensures forall x :: x in layers && t.isGroup[x] ==> x in r
    ensures Distinct(layers) ==> Distinct(r)
    decreases |layers|
  {
    if layers == [] then []
    else
      var rest := Groups(t, layers[1..]);
      assert forall k :: 0 <= k < |rest| ==> rest[k] in layers[1..];
      if t.isGroup[layers[0]] then [layers[0]] + rest else rest
  }

  /** A layer's factor is final once its group has been dequeued (or when it has none). */
  predicate Ready(t: LayerTree, done: set<nat>, j: nat)
    requires j < Size(t)
  {
    t.parent[j] == -1 || t.parent[j] in done
  }

  function GroupSet(t: LayerTree): set<nat> {
    set g: nat | g < |t.isGroup| && t.isGroup[g]
  }

  /** Every layer's factor is final if the layer is ready and not `pending`, still the declared one otherwise. */
  ghost predicate FactorsAt(t: LayerTree, declared: seq<Factor>, done: set<nat>, current: seq<Factor>, pending: seq<nat>)
    requires WellFormed(t) && |declared| == Size(t)
  {
    |current| == Size(t)
    && forall j :: 0 <= j < Size(t) ==>
      current[j] == if Ready(t, done, j) && j !in pending then Effective(t, declared, j) else declared[j]
  }

  /** The queue holds distinct ready groups that have not been processed. */
  ghost predicate QueueOk(t: LayerTree, done: set<nat>, queue: seq<nat>) {
    Distinct(queue)
    && forall i :: 0 <= i < |queue| ==> queue[i] < Size(t) && queue[i] < |t.isGroup| && t.isGroup[queue[i]] && queue[i] !in done && Ready(t, done, queue[i])
  }

  /** Every ready, unprocessed group outside `pending` is queued. */
  ghost predicate Complete(t: LayerTree, done: set<nat>, queue: seq<nat>, pending: seq<nat>)
    requires WellFormed(t)
  {
    forall c :: 0 <= c < Size(t) && t.isGroup[c] && Ready(t, done, c) && c !in done && c !in pending ==> c in queue
  }

  /** Processed layers are ready groups. */
  ghost predicate DoneOk(t: LayerTree, done: set<nat>)
    requires WellFormed(t)
  {
    forall g :: g in done ==> g < Size(t) && t.isGroup[g] && Ready(t, done, g)
  }

  /** While a group's children are visited: factors, queue and completeness, with `pending` the children still to visit. */
  ghost predicate Visiting(t: LayerTree, declared: seq<Factor>, done: set<nat>, current: seq<Factor>, queue: seq<nat>, pending: seq<nat>)
    requires WellFormed(t) && |declared| == Size(t)
  {
    FactorsAt(t, declared, done, current, pending)
    && QueueOk(t, done, queue) && Complete(t, done, queue, pending)
    && forall i :: 0 <= i < |queue| ==> queue[i] !in pending
  }

  /** `order` lists the processed groups, each once, and they are ready groups. */
  ghost predicate Processed(t: LayerTree, done: set<nat>, order: seq<nat>)
    requires WellFormed(t)
  {
    DoneOk(t, done) && Distinct(order) && forall g :: g in order <==> g in done
  }

  /** Between two dequeues. */
  ghost predicate Between(t: LayerTree, declared: seq<Factor>, done: set<nat>, current: seq<Factor>, queue: seq<nat>, order: seq<nat>)
    requires WellFormed(t) && |declared| == Size(t)
  {
    Visiting(t, declared, done, current, queue, []) && Processed(t, done, order)
  }

  /** What visiting the children of the dequeued group `g` expects; `done` already holds `g`. */
  ghost predicate Processing(t: LayerTree, declared: seq<Factor>, done: set<nat>, g: nat, current: seq<Factor>, queue: seq<nat>)
    requires WellFormed(t) && |declared| == Size(t)
  {
    g < Size(t) && t.isGroup[g] && g in done && Ready(t, done, g)
    && (forall c :: c in t.children[g] ==> c !in done)
    && Visiting(t, declared, done, current, queue, t.children[g])
  }

  /**
   * The parallax pass of `loadTiledMap`: a queue that starts with the
   * top-level groups; each dequeued group multiplies its children's factors
   * by its own and queues the children that are groups. Returns, as a ghost,
   * the order in which groups were dequeued.
   */
  method Propagate(t: LayerTree, factors: array<Factor>) returns (ghost order: seq<nat>)
    requires WellFormed(t) && factors.Length == Size(t)
    modifies factors
    ensures forall j :: 0 <= j < factors.Length ==> factors[j] == Effective(t, old(factors[..]), j)
    ensures Distinct(order)
    ensures forall g :: 0 <= g < Size(t) ==> (g in order <==> t.isGroup[g])
  {
    ghost var declared := factors[..];
    ghost var done: set<nat> := {};
    var queue: seq<nat> := Groups(t, t.topLevel);
    order := [];
    Start(t, declared, queue);
    while queue != []
      invariant Between(t, declared, done, factors[..], queue, order)
      decreases GroupSet(t) - done
    {
      var g: nat := queue[0];
      Dequeue(t, declared, done, factors[..], queue, order);
      queue := queue[1..];
      done := done + {g};
      order := order + [g];
      queue := PropagateGroup(t, factors, g, queue, declared, done);
    }
    Finish(t, declared, done, factors[..], order);
  }

  /** Before the first iteration: the queue holds the top-level groups and nothing has changed. */
  lemma Start(t: LayerTree, declared: seq<Factor>, queue: seq<nat>)
    requires WellFormed(t) && |declared| == Size(t)
    requires queue == Groups(t, t.topLevel)
    ensures Between(t, declared, {}, declared, queue, [])
  {
  }

  /** Once the queue is empty every layer is ready, so every factor is final and every group was processed. */
  lemma Finish(t: LayerTree, declared: seq<Factor>, done: set<nat>, current: seq<Factor>, order: seq<nat>)
    requires WellFormed(t) && |declared| == Size(t)
    requires Between(t, declared, done, current, [], order)
    ensures |current| == Size(t)
    ensures forall j :: 0 <= j < Size(t) ==> current[j] == Effective(t, declared, j)
    ensures Distinct(order)
    ensures forall g :: 0 <= g < Size(t) ==> (g in order <==> t.isGroup[g])
  {
    forall j | 0 <= j < Size(t)
      ensures Ready(t, done, j)
    {
      AllReady(t, done, j);
    }
  }

  /** After the head `g` of the queue is dequeued, the state is what processing `g` expects. */
  lemma Dequeue(t: LayerTree, declared: seq<Factor>, done: set<nat>, current: seq<Factor>, queue: seq<nat>, order: seq<nat>)
    requires WellFormed(t) && |declared| == Size(t)
    requires queue != [] && Between(t, declared, done, current, queue, order)
    ensures queue[0] !in done && GroupSet(t) - (done + {queue[0]}) < GroupSet(t) - done
    ensures Processing(t, declared, done + {queue[0]}, queue[0], current, queue[1..])
    ensures Processed(t, done + {queue[0]}, order + [queue[0]])
  {
    var g, rest := queue[0], queue[1..];
    assert queue == [g] + rest;
    DequeueHead(t, done, g, rest);
    DequeueFactors(t, declared, done, current, g);
    DequeueRest(t, done, g, rest);
    forall i, j | 0 <= i < j < |order + [g]|
      ensures (order + [g])[i] != (order + [g])[j]
    {
      if j == |order| {
        assert order[i] in order;
      }
    }
  }

  lemma DequeueHead(t: LayerTree, done: set<nat>, g: nat, rest: seq<nat>)
    requires WellFormed(t)
    requires QueueOk(t, done, [g] + rest)
    requires DoneOk(t, done)
    ensures g < Size(t) && t.isGroup[g] && g !in done && Ready(t, done + {g}, g)
    ensures GroupSet(t) - (done + {g}) < GroupSet(t) - done
    ensures forall c :: c in t.children[g] ==> c !in done + {g}
    ensures DoneOk(t, done + {g})
  {
    assert ([g] + rest)[0] == g;
    assert g in GroupSet(t);
    forall c | c in t.children[g]
      ensures c !in done + {g}
    {
      var k :| 0 <= k < |t.children[g]| && t.children[g][k] == c;
      assert t.parent[c] == g;
    }
  }

  lemma DequeueFactors(t: LayerTree, declared: seq<Factor>, done: set<nat>, current: seq<Factor>, g: nat)
    requires WellFormed(t) && |declared| == Size(t) && g < Size(t) && g !in done
    requires FactorsAt(t, declared, done, current, [])
    ensures FactorsAt(t, declared, done + {g}, current, t.children[g])
  {
    forall j | 0 <= j < Size(t)
      ensures (Ready(t, done + {g}, j) && j !in t.children[g]) == Ready(t, done, j)
    {
      if t.parent[j] == g {
        assert j in t.children[g];
      }
    }
  }

  lemma DequeueRest(t: LayerTree, done: set<nat>, g: nat, rest: seq<nat>)
    requires WellFormed(t) && g < Size(t) && g !in done
    requires QueueOk(t, done, [g] + rest) && Complete(t, done, [g] + rest, [])
    ensures QueueOk(t, done + {g}, rest) && Complete(t, done + {g}, rest, t.children[g])
    ensures forall i :: 0 <= i < |rest| ==> rest[i] !in t.children[g]
  {
    var queue := [g] + rest;
    forall i, j | 0 <= i < j < |rest|
      ensures rest[i] != rest[j]
    {
      assert rest[i] == queue[i + 1] && rest[j] == queue[j + 1];
    }
    forall i | 0 <= i < |rest|
      ensures rest[i] != g && rest[i] !in t.children[g]
      ensures rest[i] < Size(t) && t.isGroup[rest[i]] && rest[i] !in done + {g} && Ready(t, done + {g}, rest[i])
    {
      assert rest[i] == queue[i + 1];
      assert queue[0] == g;
    }
    forall c | 0 <= c < Size(t) && t.isGroup[c] && Ready(t, done + {g}, c) && c !in done + {g} && c !in t.children[g]
      ensures c in rest
    {
      assert c in queue;
    }
  }

  /**
   * One dequeued group `g`: each child's factor is multiplied by `g`'s, which
   * is already final, and each child that is a group joins the queue.
   * `done` already holds `g`.
   */
  method PropagateGroup(t: LayerTree, factors: array<Factor>, g: nat, queue0: seq<nat>,
                        ghost declared: seq<Factor>, ghost done: set<nat>) returns (queue: seq<nat>)
    requires WellFormed(t) && factors.Length == Size(t) && |declared| == Size(t)
    requires Processing(t, declared, done, g, factors[..], queue0)
    modifies factors
    ensures Visiting(t, declared, done, factors[..], queue, [])
  {
    var kids := t.children[g];
    queue := queue0;
    for k := 0 to |kids|
      invariant Visiting(t, declared, done, factors[..], queue, kids[k..])
    {
      var c := kids[k];
      ghost var before := factors[..];
      ChildStep(t, declared, done, g, k, before, queue);
      factors[c] := Times(factors[c], factors[g]);
      assert factors[..] == before[c := Times(before[c], before[g])];
      if t.isGroup[c] {
        queue := queue + [c];
      }
    }
    assert kids[|kids|..] == [];
  }

  /** Visiting child `k` of `g`: its factor becomes final and, if it is a group, it joins the queue. */
  lemma ChildStep(t: LayerTree, declared: seq<Factor>, done: set<nat>, g: nat, k: nat, current: seq<Factor>, queue: seq<nat>)
    requires WellFormed(t) && |declared| == Size(t)
    requires g < Size(t) && t.isGroup[g] && g in done && Ready(t, done, g)
    requires forall c :: c in t.children[g] ==> c !in done
    requires k < |t.children[g]|
    requires Visiting(t, declared, done, current, queue, t.children[g][k..])
    ensures t.children[g][k] < |current| && g < |current|
    ensures var c := t.children[g][k];
      Visiting(t, declared, done, current[c := Times(current[c], current[g])],
               if t.isGroup[c] then queue + [c] else queue, t.children[g][k + 1..])
  {
    var c := t.children[g][k];
    ChildFactors(t, declared, done, g, k, current);
    ChildQueue(t, done, g, k, queue);
  }

  lemma ChildFactors(t: LayerTree, declared: seq<Factor>, done: set<nat>, g: nat, k: nat, current: seq<Factor>)
    requires WellFormed(t) && |declared| == Size(t)
    requires g < Size(t) && g in done && Ready(t, done, g)
    requires k < |t.children[g]|
    requires FactorsAt(t, declared, done, current, t.children[g][k..])
    ensures var c := t.children[g][k];
      FactorsAt(t, declared, done, current[c := Times(current[c], current[g])], t.children[g][k + 1..])
  {
    var kids := t.children[g];
    var c := kids[k];
    assert t.parent[c] == g;
    assert c in kids[k..];
    assert c !in kids[k + 1..] by {
      assert Distinct(kids);
    }
    var next := current[c := Times(current[c], current[g])];
    forall j | 0 <= j < Size(t)
      ensures next[j] == if Ready(t, done, j) && j !in kids[k + 1..] then Effective(t, declared, j) else declared[j]
    {
      if j != c {
        assert j in kids[k + 1..] ==> j in kids[k..];
        assert j in kids[k..] ==> j in kids[k + 1..] by {
          if j in kids[k..] {
            var i :| k <= i < |kids| && kids[i] == j;
            assert i != k;
            assert kids[i] == kids[k + 1..][i - k - 1];
          }
        }
      }
    }
  }

  lemma ChildQueue(t: LayerTree, done: set<nat>, g: nat, k: nat, queue: seq<nat>)
    requires WellFormed(t)
    requires g < Size(t) && g in done
    requires forall c :: c in t.children[g] ==> c !in done
    requires k < |t.children[g]|
    requires QueueOk(t, done, queue) && Complete(t, done, queue, t.children[g][k..])
    requires forall i :: 0 <= i < |queue| ==> queue[i] !in t.children[g][k..]
    ensures var c := t.children[g][k];
      var next := if t.isGroup[c] then queue + [c] else queue;
      QueueOk(t, done, next) && Complete(t, done, next, t.children[g][k + 1..])
      && forall i :: 0 <= i < |next| ==> next[i] !in t.children[g][k + 1..]
  {
    var kids := t.children[g];
    var c := kids[k];
    var next := if t.isGroup[c] then queue + [c] else queue;
    assert t.parent[c] == g && c in kids;
    assert c in kids[k..];
    assert c !in kids[k + 1..] by {
      assert Distinct(kids);
    }
    assert forall j :: j in kids[k + 1..] ==> j in kids[k..];
    forall i | 0 <= i < |next|
      ensures next[i] !in kids[k + 1..]
      ensures next[i] < Size(t) && next[i] < |t.isGroup| && t.isGroup[next[i]] && next[i] !in done && Ready(t, done, next[i])
    {
      if i < |queue| {
        assert next[i] == queue[i];
      }
    }
    forall i, j | 0 <= i < j < |next|
      ensures next[i] != next[j]
    {
      if j == |queue| {
        assert next[i] == queue[i] && next[j] == c;
      }
    }
    forall x | 0 <= x < Size(t) && t.isGroup[x] && Ready(t, done, x) && x !in done && x !in kids[k + 1..]
      ensures x in next
    {
      if x != c {
        assert x !in kids[k..];
        assert x in queue;
        var i :| 0 <= i < |queue| && queue[i] == x;
        assert next[i] == x;
      } else {
        assert next[|next| - 1] == c;
      }
    }
  }

  /** When every ready group has been processed, every layer is ready: groups come before their children. */
  lemma {:induction false} AllReady(t: LayerTree, done: set<nat>, j: nat)
    requires WellFormed(t) && j < Size(t)
    requires forall g :: 0 <= g < Size(t) && t.isGroup[g] && Ready(t, done, g) ==> g in done
    ensures Ready(t, done, j)
    decreases j
  {
    if t.parent[j] != -1 {
      AllReady(t, done, t.parent[j]);
    }
  }
}
