/**
 * The state under optimisation and the move protocol (apply / revert /
 * accept). Move implementations are not part of this model: a move is a
 * value naming the entity it touches, the placement it gives that entity
 * (or `None` to remove it), and whether its apply is realizable.
 */
module Scene {
  import opened Wrappers
  import opened Evaluation

  datatype Move = Move(
    kind: string,            // the move's class name, recorded in the statistics
    name: Option<string>,    // its `name` attribute, when it has one
    target: nat,             // the entity it mutates
    pose: Option<Pose>,      // new placement, or None to remove the entity
    realizable: bool)        // whether `apply` succeeds

  /** A call of the move protocol, as recorded in the scene's ghost trace. */
  datatype Event = Applied(move: Move, ok: bool) | Reverted(move: Move) | Accepted(move: Move)

  /** The scene after a successful apply: only the target entity changes. */
  function Place(objs: Objs, m: Move): (r: Objs)
    ensures AgreeExcept(objs, r, m.target)
    ensures m.pose.Some? ==> m.target in r && r[m.target] == m.pose.value
    ensures m.pose.None? ==> m.target !in r
  {
    if m.pose.Some? then objs[m.target := m.pose.value] else objs - {m.target}
  }

  /**
   * The mutable scene. `undo` is the snapshot a move keeps to revert itself;
   * `trace` records every protocol call for the specification only.
   */
  class SceneState {
    var objs: Objs
    var undo: Objs
    ghost var trace: seq<Event>

    constructor (objs: Objs)
      ensures this.objs == objs && undo == objs && trace == []
    {
      this.objs := objs;
      undo := objs;
      trace := [];
    }

    /** All-or-nothing apply: a failed apply leaves the scene as it was. */
    method Apply(m: Move) returns (ok: bool)
      modifies this
      ensures ok == m.realizable
      ensures objs == (if ok then Place(old(objs), m) else old(objs))
      ensures undo == old(objs)
      ensures trace == old(trace) + [Applied(m, ok)]
    {
      undo := objs;
      ok := m.realizable;
      if ok {
        objs := Place(objs, m);
      }
      trace := trace + [Applied(m, ok)];
    }

    /** Lossless revert to the scene before the last apply. */
    method Revert(m: Move)
      modifies this
      ensures objs == old(undo) && undo == old(undo)
      ensures trace == old(trace) + [Reverted(m)]
    {
      objs := undo;
      trace := trace + [Reverted(m)];
    }

    /** Finalise the applied move: the scene keeps it. */
    method Accept(m: Move)
      modifies this
      ensures objs == old(objs) && undo == old(objs)
      ensures trace == old(trace) + [Accepted(m)]
    {
      undo := objs;
      trace := trace + [Accepted(m)];
    }
  }

  /** Apply followed by revert gives back the scene, whether or not apply succeeded. */
  method ApplyThenRevert(s: SceneState, m: Move)
    modifies s
    ensures s.objs == old(s.objs)
    ensures s.trace == old(s.trace) + [Applied(m, m.realizable), Reverted(m)]
  {
    var _ := s.Apply(m);
    s.Revert(m);
  }
}
