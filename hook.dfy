/** The hook as the component keeps it: mutable fields that the animation
    loop, the input handler and the round-reset effect update in place.
    Each method is proved to do what the matching function of HookLogic
    describes, so every property proved there holds of the fields. */
module HookSim {
  import opened GameTypes
  import opened Capture
  import opened HookLogic

  class Hook {
    const tuning: Tuning
    var angle: real
    var direction: int
    var phase: Phase
    var length: real
    var caught: Option<GameObject>

    /** The fields read as one hook state. */
    function State(): HookState
      reads this
    {
      HookState(angle, direction, phase, length, caught)
    }

    ghost predicate Valid()
      reads this
    {
      tuning.Valid() && Inv(tuning, State())
    }

    /** A fresh hook: angle 0, swinging in the +1 direction, IDLE, at the
        rest length and empty. */
    constructor (t: Tuning)
      requires t.Valid()
      ensures Valid() && tuning == t
      ensures State() == Initial(t)
    {
      tuning := t;
      angle := 0.0;
      direction := 1;
      phase := Idle;
      length := t.restLength;
      caught := None;
    }

    /** The round reset, run whenever the game state changes: it acts only
        when the new state is Playing. */
    method Reset(game: GameState)
      requires Valid()
      modifies this
      ensures Valid()
      ensures State() == ResetRound(tuning, game, old(State()))
    {
      if game == Playing {
        length := tuning.restLength;
        angle := 0.0;
        phase := Idle;
        caught := None;
      }
    }

    /** The trigger input (mouse down or touch start). */
    method Trigger(game: GameState)
      requires Valid()
      modifies this
      ensures Valid()
      ensures State() == Press(game, old(State()))
    {
      if game == Playing && phase == Idle {
        phase := Extending;
      }
    }

    /** One animation frame. The tip position, which the frame computes
        from the angle and the new length, is an input. Returns the live
        objects after the frame and the score delta it reports. */
    method Tick(game: GameState, objects: seq<GameObject>, tipX: real, tipY: real)
      returns (remaining: seq<GameObject>, delta: Option<int>)
      requires Valid()
      modifies this
      ensures Valid()
      ensures TickResult(State(), remaining, delta) == Step(tuning, game, old(State()), objects, tipX, tipY)
    {
      remaining, delta := objects, None;
      if game != Playing {
        return;
      }
      if phase == Idle {
        angle := angle + tuning.rotationSpeed * direction as real;
        if angle > tuning.maxAngle || angle < tuning.minAngle {
          direction := -direction;
        }
      } else if phase == Extending {
        length := length + tuning.extendSpeed;
        if tipX < 0.0 || tipX > tuning.canvasWidth || tipY > tuning.canvasHeight {
          phase := Retrieving;
        }
        ghost var afterMove := State();
        var i := 0;
        while i < |objects|
          invariant 0 <= i <= |objects|
          invariant forall j :: 0 <= j < i ==> !InBox(objects[j], tipX, tipY)
          invariant State() == afterMove && remaining == objects
        {
          var obj := objects[i];
          if InBox(obj, tipX, tipY) {
            caught := Some(obj);
            phase := Retrieving;
            remaining := RemoveAt(objects, i);
            FirstHitIsUnique(objects, tipX, tipY, i);
            break;
          }
          i := i + 1;
        }
      } else {
        var speed := tuning.retrieveBase;
        if caught.Some? {
          var weight := EffectiveWeight(caught.value.weight);
          speed := Max(1.0, tuning.retrieveBase / weight);
        }
        length := length - speed;
        if length <= tuning.restLength {
          length := tuning.restLength;
          phase := Idle;
          if caught.Some? {
            delta := Some(caught.value.value);
            caught := None;
          }
        }
      }
    }
  }
}
