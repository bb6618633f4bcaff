/** The hook's state machine as values: one animation tick, the trigger
    input and the round reset, each a function from the old hook state to
    the new one, with the single-step properties proved about them. */
module HookLogic {
  import opened GameTypes
  import opened Capture

  datatype Phase = Idle | Extending | Retrieving

  /** The tuning constants of the simulation. `restLength` is the fully
      retracted length the source hard-codes as 30. */
  datatype Tuning = Tuning(
    extendSpeed: real,
    retrieveBase: real,
    rotationSpeed: real,
    minAngle: real,
    maxAngle: real,
    canvasWidth: real,
    canvasHeight: real,
    restLength: real)
  {
    /** What the invariants need of the constants: extension never
        shortens the arm, and an empty hook reels in at least 1 per tick. */
    predicate Valid()
    {
      extendSpeed >= 0.0 && retrieveBase >= 1.0
    }
  }

  /** The constants the game ships with (MAX_ANGLE is pi - 0.2). */
  const Shipped: Tuning := Tuning(5.0, 8.0, 0.03, 0.2, 3.141592653589793 - 0.2, 800.0, 600.0, 30.0)

  /** The mutable hook state: arm angle, swing direction (+1 or -1),
      motion phase, arm length and the object being reeled in. */
  datatype HookState = HookState(
    angle: real,
    direction: int,
    phase: Phase,
    length: real,
    caught: Option<GameObject>)

  /** The hook invariant: the arm is never shorter than at rest, the swing
      direction is a unit, and an object is carried only while retrieving. */
  predicate Inv(t: Tuning, s: HookState)
  {
    s.length >= t.restLength &&
    (s.direction == 1 || s.direction == -1) &&
    (s.caught.Some? ==> s.phase == Retrieving)
  }

  /** The hook as the component first creates it. */
  function Initial(t: Tuning): (s: HookState)
    ensures Inv(t, s) && s.phase == Idle && s.caught == None
  {
    HookState(0.0, 1, Idle, t.restLength, None)
  }

  /** What one tick produces: the new hook, the new live-object list and
      the score delta it reports, if any. */
  datatype TickResult = TickResult(hook: HookState, objects: seq<GameObject>, delta: Option<int>)

  /** The value carried by the hook, 0 when it carries nothing. */
  function CarriedValue(s: HookState): int
  {
    match s.caught
    case None => 0
    case Some(o) => o.value
  }

  /** A zero weight counts as 1. */
  function EffectiveWeight(w: real): real
  {
    if w == 0.0 then 1.0 else w
  }

  function Max(a: real, b: real): real
  {
    if a >= b then a else b
  }

  /** Reeling speed: the base speed when empty, otherwise the base speed
      divided by the object's weight but never below 1. */
  function RetrieveSpeed(t: Tuning, caught: Option<GameObject>): (speed: real)
    ensures caught.Some? ==> speed >= 1.0
  {
    match caught
    case None => t.retrieveBase
    case Some(o) => Max(1.0, t.retrieveBase / EffectiveWeight(o.weight))
  }

  /** The tip has left the field through the left, right or bottom edge;
      the top edge is not tested. */
  predicate OutOfField(t: Tuning, tx: real, ty: real)
  {
    tx < 0.0 || tx > t.canvasWidth || ty > t.canvasHeight
  }

  /** An IDLE tick: the arm turns by one rotation step and the direction
      flips once the angle is past either bound, without clamping. */
  function Swing(t: Tuning, s: HookState): HookState
  {
    var a := s.angle + t.rotationSpeed * s.direction as real;
    s.(angle := a,
       direction := if a > t.maxAngle || a < t.minAngle then -s.direction else s.direction)
  }

  /** An EXTENDING tick: the arm grows, leaving the field starts the
      retrieval, and the first object whose box holds the tip is caught
      and taken out of the list, also on the tick the tip leaves the field. */
  function Extend(t: Tuning, s: HookState, objects: seq<GameObject>, tx: real, ty: real): TickResult
  {
    var len := s.length + t.extendSpeed;
    var ph := if OutOfField(t, tx, ty) then Retrieving else s.phase;
    match FirstHit(objects, tx, ty)
    case None => TickResult(s.(length := len, phase := ph), objects, None)
    case Some(i) =>
      TickResult(s.(length := len, phase := Retrieving, caught := Some(objects[i])),
                 RemoveAt(objects, i), None)
  }

  /** A RETRIEVING tick: the arm shortens; at or below the rest length it
      is set to the rest length, the hook goes IDLE and a carried object's
      value is reported and the object dropped. */
  function Retrieve(t: Tuning, s: HookState, objects: seq<GameObject>): TickResult
  {
    var len := s.length - RetrieveSpeed(t, s.caught);
    if len <= t.restLength then
      TickResult(s.(length := t.restLength, phase := Idle, caught := None), objects,
                 if s.caught.Some? then Some(s.caught.value.value) else None)
    else
      TickResult(s.(length := len), objects, None)
  }

  /** One animation frame; the hook only moves while the game is Playing. */
  function Step(t: Tuning, game: GameState, s: HookState, objects: seq<GameObject>, tx: real, ty: real): TickResult
  {
    if game != Playing then TickResult(s, objects, None)
    else
      match s.phase
      case Idle => TickResult(Swing(t, s), objects, None)
      case Extending => Extend(t, s, objects, tx, ty)
      case Retrieving => Retrieve(t, s, objects)
  }

  /** The trigger input: starts extending, only from IDLE while Playing. */
  function Press(game: GameState, s: HookState): HookState
  {
    if game == Playing && s.phase == Idle then s.(phase := Extending) else s
  }

  /** The round reset run when the game state becomes Playing; the swing
      direction is kept. */
  function ResetRound(t: Tuning, game: GameState, s: HookState): HookState
  {
    if game == Playing then s.(length := t.restLength, angle := 0.0, phase := Idle, caught := None)
    else s
  }

  /** The successor of a phase in the cycle IDLE -> EXTENDING -> RETRIEVING -> IDLE. */
  function Next(p: Phase): Phase
  {
    match p
    case Idle => Extending
    case Extending => Retrieving
    case Retrieving => Idle
  }

  /** A phase change allowed by the cycle: stay, or move to the successor. */
  predicate Advances(p: Phase, q: Phase)
  {
    q == p || q == Next(p)
  }

  // ---------------------------------------------------------------------
  // Retrieval speed

  /** With valid constants the arm always reels in at least 1 per tick. */
  lemma RetrieveSpeedAtLeastOne(t: Tuning, caught: Option<GameObject>)
    requires t.Valid()
    ensures RetrieveSpeed(t, caught) >= 1.0
  {
  }

  /** Empty hook: base speed. Carried object: max(1, base / weight), where
      a zero weight is taken as 1; hence a weight of at least 1 never
      exceeds the base speed, and a weight in (0, 1) never falls below it. */
  lemma RetrieveSpeedByWeight(t: Tuning, o: GameObject)
    requires t.Valid()
    ensures RetrieveSpeed(t, None) == t.retrieveBase
    ensures o.weight == 0.0 ==> RetrieveSpeed(t, Some(o)) == t.retrieveBase
    ensures o.weight >= 1.0 ==> 1.0 <= RetrieveSpeed(t, Some(o)) <= t.retrieveBase
    ensures 0.0 < o.weight < 1.0 ==> RetrieveSpeed(t, Some(o)) >= t.retrieveBase
    ensures o.weight < 0.0 ==> RetrieveSpeed(t, Some(o)) == 1.0
  {
    var w := o.weight;
    var q := t.retrieveBase / EffectiveWeight(w);
    if w != 0.0 {
      assert q * w == t.retrieveBase;
      // base - q == q * (w - 1), whose sign follows q and w - 1
      assert t.retrieveBase - q == q * (w - 1.0);
      if w >= 1.0 {
        assert q >= 0.0;
        assert q * (w - 1.0) >= 0.0;
      } else if w > 0.0 {
        assert q > 0.0;
        assert q * (w - 1.0) <= 0.0;
      } else {
        assert q < 0.0;
      }
    }
  }

  /** Lighter objects come back at least as fast as heavier ones. */
  lemma RetrieveSpeedMonotone(t: Tuning, lighter: GameObject, heavier: GameObject)
    requires t.Valid()
    requires 0.0 < lighter.weight <= heavier.weight
    ensures RetrieveSpeed(t, Some(lighter)) >= RetrieveSpeed(t, Some(heavier))
  {
    var wl, wh := lighter.weight, heavier.weight;
    var a := t.retrieveBase / wl;
    var b := t.retrieveBase / wh;
    assert a * wl == t.retrieveBase;
    assert b * wh == t.retrieveBase;
    assert b > 0.0;
    assert b * wh >= b * wl;
    assert (a - b) * wl >= 0.0;
    PositiveFactor(a - b, wl);
  }

  /** A product with a positive factor is non-negative only if the other is. */
  lemma PositiveFactor(x: real, y: real)
    requires y > 0.0 && x * y >= 0.0
    ensures x >= 0.0
  {
  }

  // ---------------------------------------------------------------------
  // One tick

  /** An IDLE tick turns the arm by exactly rotationSpeed * direction, keeps
      the length, flips the direction exactly when the new angle is past a
      bound (the angle itself is left past the bound), and touches neither
      the list nor the score. */
  lemma IdleTick(t: Tuning, s: HookState, objects: seq<GameObject>, tx: real, ty: real)
    requires s.phase == Idle && (s.direction == 1 || s.direction == -1)
    ensures var r := Step(t, Playing, s, objects, tx, ty);
      r.hook.angle == s.angle + t.rotationSpeed * s.direction as real &&
      r.hook.length == s.length && r.hook.phase == Idle && r.hook.caught == s.caught &&
      (r.hook.direction == -s.direction <==> (r.hook.angle > t.maxAngle || r.hook.angle < t.minAngle)) &&
      (r.hook.direction == s.direction <==> t.minAngle <= r.hook.angle <= t.maxAngle) &&
      r.objects == objects && r.delta == None
  {
  }

  /** An EXTENDING tick lengthens the arm by exactly extendSpeed and swings
      nothing. Leaving the field by the left, right or bottom edge starts
      the retrieval; a tip above the top edge does not. With no box holding
      the tip the list is untouched and nothing is caught; otherwise the
      first such object is caught, removed (all others keep their order)
      and the retrieval starts, even on the tick the tip left the field. */
  lemma ExtendTick(t: Tuning, s: HookState, objects: seq<GameObject>, tx: real, ty: real)
    requires s.phase == Extending && s.caught == None
    ensures var r := Step(t, Playing, s, objects, tx, ty);
      r.hook.length == s.length + t.extendSpeed &&
      r.hook.angle == s.angle && r.hook.direction == s.direction && r.delta == None &&
      match FirstHit(objects, tx, ty)
      case None =>
        r.objects == objects && r.hook.caught == None &&
        (r.hook.phase == Retrieving <==> (tx < 0.0 || tx > t.canvasWidth || ty > t.canvasHeight)) &&
        (r.hook.phase == Extending <==> (0.0 <= tx <= t.canvasWidth && ty <= t.canvasHeight))
      case Some(i) =>
        i < |objects| && InBox(objects[i], tx, ty) &&
        (forall j :: 0 <= j < i ==> !InBox(objects[j], tx, ty)) &&
        r.hook.caught == Some(objects[i]) && r.hook.phase == Retrieving &&
        r.objects == objects[..i] + objects[i + 1..] &&
        multiset(r.objects) + multiset{objects[i]} == multiset(objects)
  {
    match FirstHit(objects, tx, ty)
    case None =>
    case Some(i) => RemoveAtMultiset(objects, i);
  }

  /** A RETRIEVING tick never tests for collisions and leaves the list
      alone; it shortens the arm by the retrieval speed, and when that
      reaches the rest length it stops there, goes IDLE, drops the carried
      object and reports exactly its value. */
  lemma RetrieveTick(t: Tuning, s: HookState, objects: seq<GameObject>, tx: real, ty: real)
    requires s.phase == Retrieving
    ensures var r := Step(t, Playing, s, objects, tx, ty);
      var len := s.length - RetrieveSpeed(t, s.caught);
      r.objects == objects && r.hook.angle == s.angle && r.hook.direction == s.direction &&
      (len <= t.restLength ==>
         r.hook.length == t.restLength && r.hook.phase == Idle && r.hook.caught == None &&
         r.delta == (if s.caught.Some? then Some(s.caught.value.value) else None)) &&
      (len > t.restLength ==>
         r.hook.length == len && r.hook.phase == Retrieving && r.hook.caught == s.caught &&
         r.delta == None)
  {
  }

  /** Outside Playing a tick changes nothing. */
  lemma PausedTick(t: Tuning, game: GameState, s: HookState, objects: seq<GameObject>, tx: real, ty: real)
    requires game != Playing
    ensures Step(t, game, s, objects, tx, ty) == TickResult(s, objects, None)
  {
  }

  /** Every tick keeps the hook invariant. */
  lemma StepPreservesInv(t: Tuning, game: GameState, s: HookState, objects: seq<GameObject>, tx: real, ty: real)
    requires t.Valid() && Inv(t, s)
    ensures Inv(t, Step(t, game, s, objects, tx, ty).hook)
  {
    RetrieveSpeedAtLeastOne(t, s.caught);
  }

  /** A tick moves the phase only along the cycle, never skipping a phase. */
  lemma StepAdvances(t: Tuning, game: GameState, s: HookState, objects: seq<GameObject>, tx: real, ty: real)
    ensures Advances(s.phase, Step(t, game, s, objects, tx, ty).hook.phase)
  {
  }

  /** A tick reports a score delta exactly when it completes the retrieval
      of a carried object; the delta is that object's value and the object
      is dropped, so it cannot be reported again. */
  lemma DeltaOnlyOnCompletion(t: Tuning, game: GameState, s: HookState, objects: seq<GameObject>, tx: real, ty: real)
    ensures var r := Step(t, game, s, objects, tx, ty);
      (r.delta.Some? <==>
         game == Playing && s.phase == Retrieving && s.caught.Some? && r.hook.phase == Idle) &&
      (r.delta.Some? ==> r.delta.value == s.caught.value.value && r.hook.caught == None)
  {
  }

  /** No value is created or lost by a tick: what is carried, what lies in
      the field and what the tick reports always add up to the same total. */
  lemma StepConservesValue(t: Tuning, game: GameState, s: HookState, objects: seq<GameObject>, tx: real, ty: real)
    requires Inv(t, s)
    ensures var r := Step(t, game, s, objects, tx, ty);
      CarriedValue(r.hook) + TotalValue(r.objects) + Gain(r.delta) == CarriedValue(s) + TotalValue(objects)
  {
    if game == Playing && s.phase == Extending {
      match FirstHit(objects, tx, ty)
      case None =>
      case Some(i) => RemoveAtTotalValue(objects, i);
    }
  }

  // ---------------------------------------------------------------------
  // Trigger and reset

  /** The trigger turns IDLE into EXTENDING only while Playing; in any other
      phase, or outside Playing, it changes nothing, so pressing again is
      harmless. */
  lemma PressSpec(t: Tuning, game: GameState, s: HookState)
    requires Inv(t, s)
    ensures var r := Press(game, s);
      Inv(t, r) && Advances(s.phase, r.phase) &&
      (game == Playing && s.phase == Idle ==> r.phase == Extending && r == s.(phase := Extending)) &&
      (game != Playing || s.phase != Idle ==> r == s) &&
      (r.phase == Extending ==> Press(game, r) == r)
  {
  }

  /** Entering Playing puts the hook at rest: length at the rest length,
      angle 0, IDLE and nothing carried, keeping the swing direction. */
  lemma ResetSpec(t: Tuning, s: HookState)
    requires s.direction == 1 || s.direction == -1
    ensures var r := ResetRound(t, Playing, s);
      Inv(t, r) && r.phase == Idle && r.length == t.restLength && r.angle == 0.0 &&
      r.caught == None && r.direction == s.direction
  {
  }
}
