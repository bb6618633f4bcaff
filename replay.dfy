/** Sequences of inputs: what the hook, the live list and the score become
    after a run of animation frames and trigger presses, and the properties
    that relate many ticks (the phase cycle, termination of the retrieval,
    conservation of value). The game state is fixed for a run. */
module Replay {
  import opened GameTypes
  import opened Capture
  import opened HookLogic

  /** An input to the simulation: an animation frame, with the tip position
      that frame computes, or a trigger press. */
  datatype Event = Frame(tipX: real, tipY: real) | Click

  /** What persists between events: the hook, the live objects and the
      score the reported deltas accumulate into. */
  datatype Round = Round(hook: HookState, objects: seq<GameObject>, score: int)

  function Apply(t: Tuning, game: GameState, w: Round, e: Event): Round
  {
    match e
    case Frame(tx, ty) =>
      var r := Step(t, game, w.hook, w.objects, tx, ty);
      Round(r.hook, r.objects, w.score + Gain(r.delta))
    case Click => w.(hook := Press(game, w.hook))
  }

  function Run(t: Tuning, game: GameState, w: Round, events: seq<Event>): Round
    decreases |events|
  {
    if |events| == 0 then w else Run(t, game, Apply(t, game, w, events[0]), events[1..])
  }

  /** The phase before each event and after the last one. */
  function Phases(t: Tuning, game: GameState, w: Round, events: seq<Event>): (ps: seq<Phase>)
    ensures |ps| == |events| + 1
    ensures ps[0] == w.hook.phase && ps[|events|] == Run(t, game, w, events).hook.phase
    decreases |events|
  {
    if |events| == 0 then [w.hook.phase]
    else [w.hook.phase] + Phases(t, game, Apply(t, game, w, events[0]), events[1..])
  }

  predicate OnlyFrames(events: seq<Event>)
  {
    forall k :: 0 <= k < |events| ==> events[k].Frame?
  }

  /** The value still in play: banked, carried, or lying in the field. */
  function Worth(w: Round): int
  {
    w.score + CarriedValue(w.hook) + TotalValue(w.objects)
  }

  lemma ApplyPreservesInv(t: Tuning, game: GameState, w: Round, e: Event)
    requires t.Valid() && Inv(t, w.hook)
    ensures Inv(t, Apply(t, game, w, e).hook)
  {
    match e
    case Frame(tx, ty) => StepPreservesInv(t, game, w.hook, w.objects, tx, ty);
    case Click => PressSpec(t, game, w.hook);
  }

  lemma ApplyAdvances(t: Tuning, game: GameState, w: Round, e: Event)
    ensures Advances(w.hook.phase, Apply(t, game, w, e).hook.phase)
  {
    match e
    case Frame(tx, ty) => StepAdvances(t, game, w.hook, w.objects, tx, ty);
    case Click =>
  }

  /** Any run of frames and presses keeps the hook invariant: length at
      least the rest length, a unit swing direction, and an object carried
      only while retrieving. */
  lemma {:induction false} RunPreservesInv(t: Tuning, game: GameState, w: Round, events: seq<Event>)
    requires t.Valid() && Inv(t, w.hook)
    ensures Inv(t, Run(t, game, w, events).hook)
    decreases |events|
  {
    if |events| > 0 {
      ApplyPreservesInv(t, game, w, events[0]);
      RunPreservesInv(t, game, Apply(t, game, w, events[0]), events[1..]);
    }
  }

  /** Each phase in the list is followed by itself or by its successor. */
  predicate FollowsCycle(ps: seq<Phase>)
  {
    forall k :: 0 <= k < |ps| - 1 ==> Advances(ps[k], ps[k + 1])
  }

  /** Over any run the phases follow the cycle IDLE -> EXTENDING ->
      RETRIEVING -> IDLE, each event moving at most one step along it. */
  lemma {:induction false} PhasesFollowCycle(t: Tuning, game: GameState, w: Round, events: seq<Event>)
    ensures FollowsCycle(Phases(t, game, w, events))
    decreases |events|
  {
    if |events| > 0 {
      var w1 := Apply(t, game, w, events[0]);
      ApplyAdvances(t, game, w, events[0]);
      PhasesFollowCycle(t, game, w1, events[1..]);
      var ps := Phases(t, game, w, events);
      var rest := Phases(t, game, w1, events[1..]);
      assert ps == [w.hook.phase] + rest;
      forall k | 0 <= k < |ps| - 1
        ensures Advances(ps[k], ps[k + 1])
      {
        if k > 0 {
          assert ps[k] == rest[k - 1] && ps[k + 1] == rest[k];
        } else {
          assert ps[1] == rest[0] == w1.hook.phase;
        }
      }
    }
  }

  /** No value appears from nowhere or is lost: every run keeps the sum of
      the score, the carried object's value and the field's values. */
  lemma {:induction false} RunConservesValue(t: Tuning, game: GameState, w: Round, events: seq<Event>)
    requires t.Valid() && Inv(t, w.hook)
    ensures Worth(Run(t, game, w, events)) == Worth(w)
    decreases |events|
  {
    if |events| > 0 {
      match events[0] {
        case Frame(tx, ty) => StepConservesValue(t, game, w.hook, w.objects, tx, ty);
        case Click =>
      }
      ApplyPreservesInv(t, game, w, events[0]);
      RunConservesValue(t, game, Apply(t, game, w, events[0]), events[1..]);
    }
  }

  /** Without a press an IDLE hook stays IDLE at the same length: frames
      only swing it, and neither the list nor the score changes. */
  lemma {:induction false} IdleFramesOnlySwing(t: Tuning, game: GameState, w: Round, events: seq<Event>)
    requires w.hook.phase == Idle && OnlyFrames(events)
    ensures var r := Run(t, game, w, events);
      r.hook.phase == Idle && r.hook.length == w.hook.length && r.hook.caught == w.hook.caught &&
      r.objects == w.objects && r.score == w.score
    decreases |events|
  {
    if |events| > 0 {
      IdleFramesOnlySwing(t, game, Apply(t, game, w, events[0]), events[1..]);
    }
  }

  /** Retrieval always ends: from RETRIEVING, any n >= 1 frames with
      n >= length - restLength bring the hook back to IDLE at the rest
      length, empty, with the carried value added to the score exactly once
      and the list unchanged. */
  lemma {:induction false} RetrievalCompletes(t: Tuning, w: Round, events: seq<Event>)
    requires t.Valid() && Inv(t, w.hook) && w.hook.phase == Retrieving
    requires OnlyFrames(events) && |events| >= 1
    requires |events| as real >= w.hook.length - t.restLength
    ensures var r := Run(t, Playing, w, events);
      r.hook.phase == Idle && r.hook.length == t.restLength && r.hook.caught == None &&
      r.objects == w.objects && r.score == w.score + CarriedValue(w.hook)
    decreases |events|
  {
    var w1 := Apply(t, Playing, w, events[0]);
    RetrieveSpeedAtLeastOne(t, w.hook.caught);
    RetrieveTick(t, w.hook, w.objects, events[0].tipX, events[0].tipY);
    assert OnlyFrames(events[1..]) by {
      forall k | 0 <= k < |events[1..]| ensures events[1..][k].Frame? {
        assert events[1..][k] == events[k + 1];
      }
    }
    if w1.hook.phase == Idle {
      IdleFramesOnlySwing(t, Playing, w1, events[1..]);
    } else {
      RetrievalCompletes(t, w1, events[1..]);
    }
  }

  /** The IDLE angle and direction pairs the shipped constants cycle
      through near 0: (0, +1) -> (0.03, -1) -> (0, +1) and
      (0, -1) -> (-0.03, +1) -> (0, -1). */
  predicate NearRest(s: HookState)
  {
    (s.angle == 0.0 && (s.direction == 1 || s.direction == -1)) ||
    (s.angle == 0.03 && s.direction == -1) ||
    (s.angle == -0.03 && s.direction == 1)
  }

  /** With the shipped constants the swing never gets going: a round starts
      at angle 0, below MIN_ANGLE = 0.2, with whichever direction the reset
      kept, so every frame flips the direction again and the angle only
      alternates between 0 and 0.03, or between 0 and -0.03. */
  lemma {:induction false} ShippedSwingStaysAtRest(w: Round, events: seq<Event>)
    requires w.hook.phase == Idle && OnlyFrames(events)
    requires NearRest(w.hook)
    ensures var r := Run(Shipped, Playing, w, events);
      r.hook.phase == Idle && NearRest(r.hook) && -0.03 <= r.hook.angle <= 0.03
    decreases |events|
  {
    if |events| > 0 {
      assert OnlyFrames(events[1..]) by {
        forall k | 0 <= k < |events[1..]| ensures events[1..][k].Frame? {
          assert events[1..][k] == events[k + 1];
        }
      }
      ShippedSwingStaysAtRest(Apply(Shipped, Playing, w, events[0]), events[1..]);
    }
  }

  /** A worked run with the shipped constants: a 40x40 object at (400, 500)
      worth 100 with weight 2 is caught when the tip reaches its top edge at
      (400, 480), comes back at 8 / 2 = 4 per tick, and once reeled in the
      score has risen by exactly 100 and the field is empty. */
  lemma {:induction false} ShippedCatchScenario(w: Round, o: GameObject, events: seq<Event>)
    requires Inv(Shipped, w.hook) && w.hook.phase == Extending
    requires o.x == 400.0 && o.y == 500.0 && o.width == 40.0 && o.height == 40.0
    requires o.value == 100 && o.weight == 2.0 && w.objects == [o]
    requires OnlyFrames(events) && |events| >= 1
    requires |events| as real >= w.hook.length + 5.0 - 30.0
    ensures RetrieveSpeed(Shipped, Some(o)) == 4.0
    ensures var caughtRound := Apply(Shipped, Playing, w, Frame(400.0, 480.0));
      caughtRound.hook.caught == Some(o) && caughtRound.hook.phase == Retrieving &&
      caughtRound.objects == [] &&
      var r := Run(Shipped, Playing, caughtRound, events);
      r.hook.phase == Idle && r.hook.caught == None && r.objects == [] && r.score == w.score + 100
  {
    var w1 := Apply(Shipped, Playing, w, Frame(400.0, 480.0));
    assert InBox(o, 400.0, 480.0);
    assert FirstHit(w.objects, 400.0, 480.0) == Some(0);
    StepPreservesInv(Shipped, Playing, w.hook, w.objects, 400.0, 480.0);
    RetrievalCompletes(Shipped, w1, events);
  }
}
