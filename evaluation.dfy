/**
 * Incremental (memoised) evaluation of a constraint problem and the eviction
 * of memo entries that a move makes stale.
 *
 * The solver calls `evaluate_problem` and `evict_memo_for_move`, whose code is
 * not part of this model. They are given a concrete model here:
 *  - a problem is the sequence of its constraint nodes in traversal order;
 *  - each node has a stable memo key, the set of entities it reads (its
 *    dependency footprint) and a cost function, applied to the scene
 *    restricted to that footprint, so a node's value can only depend on the
 *    entities it declares;
 *  - eviction removes exactly the entries of nodes whose footprint contains
 *    the entity the move touches.
 */
module Evaluation {
  import opened Wrappers

  /** Placement of one entity (position, rotation, ...), abstracted to an integer. */
  type Pose = int

  /** The scene's entities: entity identifier to placement. */
  type Objs = map<nat, Pose>

  /** What one constraint node contributes: weighted loss and hard-violation count. */
  datatype NodeResult = NodeResult(loss: real, viol: int)

  /** Aggregate result of evaluating a problem; compared by loss and violation count. */
  datatype EvalResult = EvalResult(loss: real, viol: int)

  /** A constraint node: memo key, the entities it reads, and its cost. */
  datatype Node = Node(key: nat, deps: set<nat>, cost: Objs -> NodeResult)

  type Problem = seq<Node>

  /** Memo: node key to the node's last computed result. */
  type Memo = map<nat, NodeResult>

  /** The part of the scene a footprint covers. */
  function Restrict(objs: Objs, deps: set<nat>): (r: Objs)
    ensures r.Keys == objs.Keys * deps
    ensures forall k :: k in r ==> r[k] == objs[k]
  {
    map k | k in objs && k in deps :: objs[k]
  }

  /** Two scenes that differ at most at entity `t`. */
  ghost predicate AgreeExcept(a: Objs, b: Objs, t: nat)
  {
    (forall k :: k in a && k != t ==> k in b && b[k] == a[k]) &&
    (forall k :: k in b && k != t ==> k in a)
  }

  function NodeEval(n: Node, objs: Objs): NodeResult
  {
    n.cost(Restrict(objs, n.deps))
  }

  function Add(acc: EvalResult, c: NodeResult): EvalResult
  {
    EvalResult(acc.loss + c.loss, acc.viol + c.viol)
  }

  /** Evaluation from scratch, with an empty memo. */
  function FullEval(p: Problem, objs: Objs): EvalResult
  {
    if |p| == 0 then EvalResult(0.0, 0)
    else Add(FullEval(p[1..], objs), NodeEval(p[0], objs))
  }

  datatype Lazy = Lazy(result: EvalResult, memo: Memo)

  /**
   * Evaluation through the memo: a node whose key is cached reuses the cached
   * value verbatim, any other node is computed and written into the memo.
   */
  function LazyEval(p: Problem, objs: Objs, memo: Memo): (r: Lazy)
    ensures memo.Keys <= r.memo.Keys
    ensures forall k :: k in memo ==> r.memo[k] == memo[k]
  {
    if |p| == 0 then Lazy(EvalResult(0.0, 0), memo)
    else
      var n := p[0];
      var c := if n.key in memo then memo[n.key] else NodeEval(n, objs);
      var rest := LazyEval(p[1..], objs, memo[n.key := c]);
      Lazy(Add(rest.result, c), rest.memo)
  }

  /** Every node of the problem has its own memo key. */
  ghost predicate KeysUnique(p: Problem)
  {
    forall i, j :: 0 <= i < j < |p| ==> p[i].key != p[j].key
  }

  /** Every cached entry of a node of `p` is what the node evaluates to on `objs`. */
  ghost predicate MemoValid(p: Problem, objs: Objs, memo: Memo)
  {
    forall i :: 0 <= i < |p| && p[i].key in memo ==> memo[p[i].key] == NodeEval(p[i], objs)
  }

  /** Some node with this key reads entity `touched`. */
  predicate Affected(p: Problem, key: nat, touched: nat)
  {
    exists i :: 0 <= i < |p| && p[i].key == key && touched in p[i].deps
  }

  /** Memo eviction for a move that touches entity `touched`. */
  function EvictForMove(p: Problem, memo: Memo, touched: nat): (r: Memo)
    ensures r.Keys <= memo.Keys
    ensures forall k :: k in r ==> r[k] == memo[k]
    ensures forall k :: k in memo ==> (k in r <==> !Affected(p, k, touched))
  {
    map k | k in memo && !Affected(p, k, touched) :: memo[k]
  }

  /** Raised by validation: the from-scratch loss and the incremental loss differ. */
  datatype Mismatch = Mismatch(fullLoss: real, incrementalLoss: real)

  /**
   * Evaluation with a fresh, empty memo (what the solver uses to seed its
   * current result and to cross-check the memo). With unique keys it is the
   * evaluation from scratch.
   */
  function FreshEval(p: Problem, objs: Objs): (r: EvalResult)
    ensures KeysUnique(p) ==> r == FullEval(p, objs)
  {
    EmptyMemoEvalIsFull(p, objs);
    LazyEval(p, objs, map[]).result
  }

  lemma EmptyMemoEvalIsFull(p: Problem, objs: Objs)
    ensures KeysUnique(p) ==> LazyEval(p, objs, map[]).result == FullEval(p, objs)
  {
    if KeysUnique(p) {
      LazyEvalAgrees(p, objs, map[]);
    }
  }

  /**
   * Validation mode: re-evaluate with an empty memo and fail when that loss
   * differs from the incremental one (only the losses are compared).
   */
  function ValidateLazyEval(p: Problem, objs: Objs, prop: EvalResult): (o: Outcome<Mismatch>)
    ensures o.Pass? <==> FreshEval(p, objs).loss == prop.loss
    ensures o.Fail? ==> o.error.fullLoss != o.error.incrementalLoss && o.error.incrementalLoss == prop.loss
  {
    var full := FreshEval(p, objs);
    if full.loss == prop.loss then Pass else Fail(Mismatch(full.loss, prop.loss))
  }

  /** A node whose footprint avoids `t` evaluates alike on scenes that differ only at `t`. */
  lemma NodeEvalLocal(n: Node, a: Objs, b: Objs, t: nat)
    requires AgreeExcept(a, b, t)
    requires t !in n.deps
    ensures NodeEval(n, a) == NodeEval(n, b)
  {
    assert Restrict(a, n.deps) == Restrict(b, n.deps);
  }

  /**
   * Memo equivalence: with a valid memo, the incremental evaluation equals the
   * evaluation from scratch, and the memo it leaves behind is still valid.
   */
  lemma {:induction false} LazyEvalAgrees(p: Problem, objs: Objs, memo: Memo)
    requires MemoValid(p, objs, memo)
    requires KeysUnique(p)
    ensures LazyEval(p, objs, memo).result == FullEval(p, objs)
    ensures MemoValid(p, objs, LazyEval(p, objs, memo).memo)
  {
    if |p| > 0 {
      var n := p[0];
      var c := if n.key in memo then memo[n.key] else NodeEval(n, objs);
      var m' := memo[n.key := c];
      var tail := p[1..];
      forall i | 0 <= i < |tail| && tail[i].key in m'
        ensures m'[tail[i].key] == NodeEval(tail[i], objs)
      {
        assert tail[i] == p[i + 1];
        assert p[0].key != p[i + 1].key;
      }
      assert KeysUnique(tail) by {
        forall i, j | 0 <= i < j < |tail| ensures tail[i].key != tail[j].key {
          assert tail[i] == p[i + 1] && tail[j] == p[j + 1];
        }
      }
      LazyEvalAgrees(tail, objs, m');
      var r := LazyEval(p, objs, memo);
      assert r.memo == LazyEval(tail, objs, m').memo;
      forall i | 0 <= i < |p| && p[i].key in r.memo
        ensures r.memo[p[i].key] == NodeEval(p[i], objs)
      {
        if i > 0 {
          assert p[i] == tail[i - 1];
        }
      }
    }
  }

  /**
   * Eviction soundness: if the memo was valid for scene `a` and `b` differs
   * from `a` only at the touched entity, the evicted memo is valid for `b`.
   * This covers both directions of a move: apply (a = before, b = after) and
   * revert (a = after, b = before).
   */
  lemma EvictSound(p: Problem, a: Objs, b: Objs, memo: Memo, t: nat)
    requires MemoValid(p, a, memo)
    requires AgreeExcept(a, b, t)
    ensures MemoValid(p, b, EvictForMove(p, memo, t))
  {
    var r := EvictForMove(p, memo, t);
    forall i | 0 <= i < |p| && p[i].key in r
      ensures r[p[i].key] == NodeEval(p[i], b)
    {
      assert !Affected(p, p[i].key, t);
      NodeEvalLocal(p[i], a, b, t);
    }
  }

  /** With a valid memo the validation mode never raises. */
  lemma {:induction false} LazyEvalPassesValidation(p: Problem, objs: Objs, memo: Memo)
    requires KeysUnique(p)
    requires MemoValid(p, objs, memo)
    ensures ValidateLazyEval(p, objs, LazyEval(p, objs, memo).result) == Pass
  {
    LazyEvalAgrees(p, objs, memo);
  }
}
