/**
 * What the bounded proposal retry loop does, as functions of the candidate
 * sequence the proposal generator yields and of `max_invalid_candidates`.
 * The loop pulls candidates in order; it stops, without applying it, at the
 * candidate whose index equals the bound; every candidate before that is
 * applied, and the first successful apply ends the loop; a failed apply is
 * reverted before the next candidate is pulled.
 */
module Retry {
  import opened Wrappers
  import opened Evaluation
  import opened Scene

  /** What the loop returns: the last pulled move, the result, the last index. */
  datatype Attempt = Attempt(move: Option<Move>, result: Option<EvalResult>, retry: Option<nat>)

  /** How many of `n` candidates may be applied under the bound. */
  function Window(n: nat, maxInvalid: int): (w: nat)
    ensures w <= n
    ensures 0 <= maxInvalid ==> w <= maxInvalid
    ensures w < n ==> w == maxInvalid
  {
    if 0 <= maxInvalid < n then maxInvalid else n
  }

  /** Index of the first realizable candidate among the first `w`. */
  function FirstRealizable(ps: seq<Move>, w: nat): (f: Option<nat>)
    requires w <= |ps|
    ensures f.Some? ==> f.value < w && ps[f.value].realizable
    ensures f.Some? ==> forall j :: 0 <= j < f.value ==> !ps[j].realizable
    ensures f.None? ==> forall j :: 0 <= j < w ==> !ps[j].realizable
  {
    if w == 0 then None
    else if ps[0].realizable then Some(0)
    else match FirstRealizable(ps[1..], w - 1)
      case None => None
      case Some(i) => Some(i + 1)
  }

  /** Index of the last candidate the loop pulls when no apply succeeds. */
  function LastPulled(n: nat, maxInvalid: int): (r: Option<nat>)
    ensures r.None? <==> n == 0
    ensures r.Some? ==> r.value < n && r.value <= Window(n, maxInvalid)
  {
    if n == 0 then None
    else if 0 <= maxInvalid < n then Some(maxInvalid)
    else Some(n - 1)
  }

  /** The protocol calls made on the first `k` candidates when they all fail. */
  function Tried(ps: seq<Move>, k: nat): (t: seq<Event>)
    requires k <= |ps|
    ensures |t| == 2 * k
    ensures forall j :: 0 <= j < k ==> t[2 * j] == Applied(ps[j], false) && t[2 * j + 1] == Reverted(ps[j])
  {
    if k == 0 then []
    else Tried(ps, k - 1) + [Applied(ps[k - 1], false), Reverted(ps[k - 1])]
  }

  /** A failed candidate extends the trace of failures by its apply and its revert. */
  lemma TriedExtends(t0: seq<Event>, ps: seq<Move>, k: nat)
    requires k < |ps|
    ensures t0 + Tried(ps, k) + [Applied(ps[k], false), Reverted(ps[k])] == t0 + Tried(ps, k + 1)
  {
    assert Tried(ps, k + 1) == Tried(ps, k) + [Applied(ps[k], false), Reverted(ps[k])];
  }

  /** The protocol calls the loop makes on the scene. */
  function RetryTrace(ps: seq<Move>, maxInvalid: int): seq<Event>
  {
    var w := Window(|ps|, maxInvalid);
    match FirstRealizable(ps, w)
    case Some(i) => Tried(ps, i) + [Applied(ps[i], true)]
    case None => Tried(ps, w)
  }

  /** The values the loop returns, apart from the evaluation result itself. */
  ghost predicate AttemptFits(ps: seq<Move>, maxInvalid: int, a: Attempt)
  {
    match FirstRealizable(ps, Window(|ps|, maxInvalid))
    case Some(i) =>
      a.move == Some(ps[i]) && a.retry == Some(i) && a.result.Some?
    case None =>
      var last := LastPulled(|ps|, maxInvalid);
      a.result.None? && a.retry == last &&
      a.move == (if last.None? then None else Some(ps[last.value]))
  }

  lemma {:induction false} FirstRealizableIs(ps: seq<Move>, w: nat, i: nat)
    requires i < w <= |ps|
    requires ps[i].realizable
    requires forall j :: 0 <= j < i ==> !ps[j].realizable
    ensures FirstRealizable(ps, w) == Some(i)
  {
    if i > 0 {
      assert !ps[0].realizable;
      FirstRealizableIs(ps[1..], w - 1, i - 1);
    }
  }

  lemma {:induction false} FirstRealizableNone(ps: seq<Move>, w: nat)
    requires w <= |ps|
    requires forall j :: 0 <= j < w ==> !ps[j].realizable
    ensures FirstRealizable(ps, w) == None
  {
    if w > 0 {
      assert !ps[0].realizable;
      FirstRealizableNone(ps[1..], w - 1);
    }
  }

  /** The loop returns at candidate `i`: the first realizable one within the bound. */
  lemma SucceedsAt(ps: seq<Move>, maxInvalid: int, i: nat)
    requires i < |ps| && i <= Window(|ps|, maxInvalid) && i != maxInvalid
    requires ps[i].realizable
    requires forall j :: 0 <= j < i ==> !ps[j].realizable
    ensures FirstRealizable(ps, Window(|ps|, maxInvalid)) == Some(i)
    ensures RetryTrace(ps, maxInvalid) == Tried(ps, i) + [Applied(ps[i], true)]
    ensures forall res :: AttemptFits(ps, maxInvalid, Attempt(Some(ps[i]), Some(res), Some(i)))
  {
    var w := Window(|ps|, maxInvalid);
    assert i < w;
    FirstRealizableIs(ps, w, i);
  }

  /** The loop stops at index `i` (bound reached or generator exhausted) with no success. */
  lemma StopsAt(ps: seq<Move>, maxInvalid: int, i: nat)
    requires i <= Window(|ps|, maxInvalid)
    requires i == |ps| || (i < |ps| && i == maxInvalid)
    requires forall j :: 0 <= j < i ==> !ps[j].realizable
    ensures FirstRealizable(ps, Window(|ps|, maxInvalid)) == None
    ensures RetryTrace(ps, maxInvalid) == Tried(ps, i)
    ensures i < |ps| ==> AttemptFits(ps, maxInvalid, Attempt(Some(ps[i]), None, Some(i)))
    ensures i == |ps| ==>
              AttemptFits(ps, maxInvalid, Attempt(if i == 0 then None else Some(ps[i - 1]), None,
                                                  if i == 0 then None else Some(i - 1)))
  {
    var w := Window(|ps|, maxInvalid);
    assert w == i;
    FirstRealizableNone(ps, w);
  }

  /** Number of apply calls in a trace. */
  function Applies(t: seq<Event>): nat
  {
    if |t| == 0 then 0 else Applies(t[..|t| - 1]) + (if t[|t| - 1].Applied? then 1 else 0)
  }

  lemma {:induction false} AppliesAppend(a: seq<Event>, b: seq<Event>)
    ensures Applies(a + b) == Applies(a) + Applies(b)
    decreases |b|
  {
    if |b| == 0 {
      assert a + b == a;
    } else {
      assert (a + b)[..|a + b| - 1] == a + b[..|b| - 1];
      assert (a + b)[|a + b| - 1] == b[|b| - 1];
      AppliesAppend(a, b[..|b| - 1]);
    }
  }

  lemma {:induction false} AppliesTried(ps: seq<Move>, k: nat)
    requires k <= |ps|
    ensures Applies(Tried(ps, k)) == k
  {
    if k > 0 {
      AppliesTried(ps, k - 1);
      AppliesAppend(Tried(ps, k - 1), [Applied(ps[k - 1], false), Reverted(ps[k - 1])]);
      var pair := [Applied(ps[k - 1], false), Reverted(ps[k - 1])];
      assert pair[..1] == [Applied(ps[k - 1], false)];
      assert [Applied(ps[k - 1], false)][..0] == [];
      assert Applies([Applied(ps[k - 1], false)]) == 1;
      assert pair[|pair| - 1] == Reverted(ps[k - 1]);
      assert Applies(pair) == 1;
    }
  }

  /**
   * Retry bound: apply is called on at most `max_invalid_candidates`
   * candidates (when that bound is not negative) and never on more than the
   * generator yields.
   */
  lemma RetryApplyBound(ps: seq<Move>, maxInvalid: int)
    ensures Applies(RetryTrace(ps, maxInvalid)) <= |ps|
    ensures 0 <= maxInvalid ==> Applies(RetryTrace(ps, maxInvalid)) <= maxInvalid
  {
    var w := Window(|ps|, maxInvalid);
    match FirstRealizable(ps, w)
    case Some(i) =>
      AppliesTried(ps, i);
      AppliesAppend(Tried(ps, i), [Applied(ps[i], true)]);
      assert [Applied(ps[i], true)][..0] == [];
      assert Applies([Applied(ps[i], true)]) == 1;
    case None =>
      AppliesTried(ps, w);
  }

  /** In the calls on failed candidates, each apply fails and is reverted right after. */
  lemma {:induction false} TriedRevertsEachFailure(ps: seq<Move>, k: nat)
    requires k <= |ps|
    ensures forall i :: 0 <= i < |Tried(ps, k)| && Tried(ps, k)[i].Applied? ==>
              !Tried(ps, k)[i].ok && i + 1 < |Tried(ps, k)| &&
              Tried(ps, k)[i + 1] == Reverted(Tried(ps, k)[i].move)
  {
    if k > 0 {
      TriedRevertsEachFailure(ps, k - 1);
      var pre := Tried(ps, k - 1);
      var t := Tried(ps, k);
      assert t == pre + [Applied(ps[k - 1], false), Reverted(ps[k - 1])];
      forall i | 0 <= i < |t| && t[i].Applied?
        ensures !t[i].ok && i + 1 < |t| && t[i + 1] == Reverted(t[i].move)
      {
        if i < |pre| {
          assert t[i] == pre[i] && t[i + 1] == pre[i + 1];
        }
      }
    }
  }

  /**
   * Every candidate whose apply failed was reverted before the next one was
   * tried, and a successful apply, if any, is the loop's last call.
   */
  lemma RetryRevertsFailures(ps: seq<Move>, maxInvalid: int)
    ensures var t := RetryTrace(ps, maxInvalid);
            forall i :: 0 <= i < |t| && t[i].Applied? && !t[i].ok ==>
              i + 1 < |t| && t[i + 1] == Reverted(t[i].move)
    ensures var t := RetryTrace(ps, maxInvalid);
            forall i :: 0 <= i < |t| && t[i].Applied? && t[i].ok ==> i == |t| - 1
  {
    var w := Window(|ps|, maxInvalid);
    match FirstRealizable(ps, w)
    case Some(k) =>
      TriedRevertsEachFailure(ps, k);
      var pre := Tried(ps, k);
      var t := pre + [Applied(ps[k], true)];
      forall i | 0 <= i < |t| && t[i].Applied?
        ensures if t[i].ok then i == |t| - 1 else i + 1 < |t| && t[i + 1] == Reverted(t[i].move)
      {
        if i < |pre| {
          assert t[i] == pre[i] && t[i + 1] == pre[i + 1];
        }
      }
    case None =>
      TriedRevertsEachFailure(ps, w);
  }

  /**
   * A result comes back only for the first candidate whose apply succeeded,
   * together with its index; the values returned are determined by the
   * candidates and the bound.
   */
  lemma AttemptDetermined(ps: seq<Move>, maxInvalid: int, a: Attempt, b: Attempt)
    requires AttemptFits(ps, maxInvalid, a) && AttemptFits(ps, maxInvalid, b)
    ensures a.move == b.move && a.retry == b.retry && a.result.Some? == b.result.Some?
    ensures a.result.Some? ==>
              (a.retry.Some? && a.move == Some(ps[a.retry.value]) &&
               ps[a.retry.value].realizable &&
               (forall j :: 0 <= j < a.retry.value ==> !ps[j].realizable))
  {
  }

  /**
   * An empty generator gives nothing at all; a non-empty one with no
   * realizable candidate in reach gives its last pulled move and index.
   */
  lemma NoSuccessResults(ps: seq<Move>, maxInvalid: int, a: Attempt)
    requires AttemptFits(ps, maxInvalid, a)
    requires forall j :: 0 <= j < |ps| ==> !ps[j].realizable
    ensures |ps| == 0 ==> a == Attempt(None, None, None)
    ensures 0 <= maxInvalid < |ps| ==> a == Attempt(Some(ps[maxInvalid]), None, Some(maxInvalid))
    ensures 0 < |ps| && !(0 <= maxInvalid < |ps|) ==> a == Attempt(Some(ps[|ps| - 1]), None, Some(|ps| - 1))
  {
  }

  /** Three unrealizable candidates, bound 5: the third move and index 2 come back. */
  lemma ScenarioThreeFailures(ps: seq<Move>, a: Attempt)
    requires |ps| == 3 && !ps[0].realizable && !ps[1].realizable && !ps[2].realizable
    requires AttemptFits(ps, 5, a)
    ensures a == Attempt(Some(ps[2]), None, Some(2))
    ensures Applies(RetryTrace(ps, 5)) == 3
  {
    RetryApplyBound(ps, 5);
    AppliesTried(ps, 3);
  }
}
