/** Records and enumerations shared by the hook simulation: the collectible
    objects of the dig field and the overall game state. */
module GameTypes {

  datatype Option<T> = None | Some(value: T)

  /** The closed set of object kinds. */
  datatype Kind = Gold | Rock | Diamond | Mystery

  /** A collectible object: its box is centred at (x, y) with the given
      width and height; `value` is banked on retrieval and `weight` slows
      the retrieval down. */
  datatype GameObject = GameObject(
    id: string,
    x: real,
    y: real,
    width: real,
    height: real,
    kind: Kind,
    value: int,
    weight: real)

  /** The screen the game is on; the hook only moves while Playing. */
  datatype GameState = Menu | Playing | LevelEnd | GameOver

  /** The value an optional score delta adds to the score. */
  function Gain(delta: Option<int>): int
  {
    match delta
    case None => 0
    case Some(v) => v
  }
}
