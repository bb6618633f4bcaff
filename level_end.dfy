/** The level-end rule: while Playing, an empty live list ends the level.
    As written it fires as soon as the last object leaves the list, which
    happens when that object is caught, before it is reeled in; its value
    is then never banked, because no tick runs outside Playing and the next
    round reset drops the carried object. The corrected rule also waits for
    the hook to be empty. */
module LevelEnd {
  import opened GameTypes
  import opened Capture
  import opened HookLogic
  import opened Replay

  /** The rule as written: Playing with no objects left becomes LevelEnd. */
  function LevelStatus(game: GameState, objects: seq<GameObject>): GameState
  {
    if game == Playing && |objects| == 0 then LevelEnd else game
  }

  /** The corrected rule: the level ends once the field is empty and the
      hook carries nothing, i.e. after the last value has been banked. */
  function LevelStatusAfterBanking(game: GameState, hook: HookState, objects: seq<GameObject>): GameState
  {
    if game == Playing && |objects| == 0 && hook.caught == None then LevelEnd else game
  }

  /** The two rules disagree only on a field emptied by a catch that is
      still on the hook: there the rule as written ends the level and the
      corrected rule keeps Playing. */
  lemma RulesDifferOnlyWhileCarrying(game: GameState, hook: HookState, objects: seq<GameObject>)
    ensures LevelStatusAfterBanking(game, hook, objects) != LevelStatus(game, objects) <==>
      game == Playing && |objects| == 0 && hook.caught.Some?
    ensures LevelStatusAfterBanking(game, hook, objects) != LevelStatus(game, objects) ==>
      LevelStatus(game, objects) == LevelEnd && LevelStatusAfterBanking(game, hook, objects) == Playing
  {
  }

  /** As written: catching the last object ends the level on that very tick
      while the object is still on the hook, so the score the level is
      judged by lacks its value, and further frames change nothing. */
  lemma {:induction false} LastCatchForfeited(t: Tuning, w: Round, o: GameObject, tx: real, ty: real, later: seq<Event>)
    requires Inv(t, w.hook) && w.hook.phase == Extending
    requires w.objects == [o] && InBox(o, tx, ty)
    ensures var r := Apply(t, Playing, w, Frame(tx, ty));
      var next := LevelStatus(Playing, r.objects);
      next == LevelEnd && r.hook.caught == Some(o) && r.score == w.score &&
      Run(t, next, r, later).score == w.score
    decreases |later|
  {
    var r := Apply(t, Playing, w, Frame(tx, ty));
    assert FirstHit(w.objects, tx, ty) == Some(0);
    PausedRun(t, LevelEnd, r, later);
  }

  /** Outside Playing no run of events changes the round: hook, list and
      score all stay as they were. */
  lemma {:induction false} PausedRun(t: Tuning, game: GameState, w: Round, events: seq<Event>)
    requires game != Playing
    ensures Run(t, game, w, events) == w
    decreases |events|
  {
    if |events| > 0 {
      assert Apply(t, game, w, events[0]) == w;
      PausedRun(t, game, w, events[1..]);
    }
  }

  /** Corrected: whenever the level ends after a run from a valid hook, the
      score holds the starting score plus everything that was carried or in
      the field at the start: no caught value is lost. */
  lemma BankedBeforeLevelEnd(t: Tuning, w: Round, events: seq<Event>)
    requires t.Valid() && Inv(t, w.hook)
    ensures var r := Run(t, Playing, w, events);
      LevelStatusAfterBanking(Playing, r.hook, r.objects) == LevelEnd ==>
        r.score == w.score + CarriedValue(w.hook) + TotalValue(w.objects)
  {
    RunConservesValue(t, Playing, w, events);
  }

  /** Corrected: the level still ends. After the last object is caught,
      enough frames reel it in, bank its value, and then end the level. */
  lemma CorrectedLevelEndReached(t: Tuning, w: Round, events: seq<Event>)
    requires t.Valid() && Inv(t, w.hook) && w.hook.phase == Retrieving && w.objects == []
    requires OnlyFrames(events) && |events| >= 1
    requires |events| as real >= w.hook.length - t.restLength
    ensures var r := Run(t, Playing, w, events);
      LevelStatusAfterBanking(Playing, r.hook, r.objects) == LevelEnd &&
      r.score == w.score + CarriedValue(w.hook)
  {
    RetrievalCompletes(t, w, events);
  }
}
