/**
 * Input components of the component-pattern game: they change a game
 * object's velocity in place, from a key code or on every frame.
 */
module InputComponents {
  import opened JavaLang

  /** `KeyEvent.KEY_LOCATION_LEFT` and `KeyEvent.KEY_LOCATION_RIGHT` of AWT. */
  const KEY_LOCATION_LEFT: int := 2
  const KEY_LOCATION_RIGHT: int := 3

  /** The part of a game object the input components touch. */
  class GameObject {
    var name: string
    /** A Java `int`: `+=` and `-=` on it wrap around. */
    var velocity: int

    constructor (name: string, velocity: int)
      requires IsInt(velocity)
      ensures this.name == name && this.velocity == velocity
    {
      this.name := name;
      this.velocity := velocity;
    }
  }

  /** The velocity after a player key: one slower on left, one faster on right, otherwise the same. */
  function PlayerVelocity(velocity: int, e: int): int {
    if e == KEY_LOCATION_LEFT then Wrap(velocity - 1)
    else if e == KEY_LOCATION_RIGHT then Wrap(velocity + 1)
    else velocity
  }

  /** The velocity after `n` demo frames, each adding the walk acceleration 2. */
  function DemoVelocityAfter(velocity: int, n: nat): int {
    if n == 0 then velocity else Wrap(DemoVelocityAfter(velocity, n - 1) + 2)
  }

  class PlayerInputComponent {
    const walkAcceleration: int := 1

    /** Accelerate left or right by the key code; any other key is invalid input and ignored. */
    method UpdateOnKey(gameObject: GameObject, e: int)
      requires IsInt(gameObject.velocity)
      modifies gameObject
      ensures gameObject.velocity == PlayerVelocity(old(gameObject.velocity), e)
      ensures gameObject.name == old(gameObject.name)
    {
      if e == KEY_LOCATION_LEFT {
        gameObject.velocity := Wrap(gameObject.velocity - walkAcceleration);
      } else if e == KEY_LOCATION_RIGHT {
        gameObject.velocity := Wrap(gameObject.velocity + walkAcceleration);
      }
    }

    /** Without a key the player component does nothing. */
    method Update(gameObject: GameObject)
      ensures unchanged(gameObject)
    {
    }
  }

  class DemoInputComponent {
    const walkAcceleration: int := 2

    /** Key input is ignored in demo mode. */
    method UpdateOnKey(gameObject: GameObject, e: int)
      ensures unchanged(gameObject)
    {
    }

    /** Every frame the demo object speeds up to the right by the walk acceleration. */
    method Update(gameObject: GameObject)
      requires IsInt(gameObject.velocity)
      modifies gameObject
      ensures gameObject.velocity == Wrap(old(gameObject.velocity) + 2)
      ensures gameObject.velocity == DemoVelocityAfter(old(gameObject.velocity), 1)
      ensures gameObject.name == old(gameObject.name)
    {
      gameObject.velocity := Wrap(gameObject.velocity + walkAcceleration);
    }
  }

  /** Left slows down by exactly one unless the velocity is already the least `int`. */
  lemma PlayerLeftStepsDownByOne(velocity: int)
    requires MIN_INT < velocity <= MAX_INT
    ensures PlayerVelocity(velocity, KEY_LOCATION_LEFT) == velocity - 1
  {
  }

  /** Right speeds up by exactly one unless the velocity is already the greatest `int`. */
  lemma PlayerRightStepsUpByOne(velocity: int)
    requires MIN_INT <= velocity < MAX_INT
    ensures PlayerVelocity(velocity, KEY_LOCATION_RIGHT) == velocity + 1
  {
  }

  /** Any key other than left or right leaves the velocity alone. */
  lemma PlayerOtherKeysIgnored(velocity: int, e: int)
    requires e != KEY_LOCATION_LEFT && e != KEY_LOCATION_RIGHT
    ensures PlayerVelocity(velocity, e) == velocity
  {
  }

  /** A left key followed by a right key restores the velocity, wrap-around included. */
  lemma LeftThenRightRestores(velocity: int)
    requires IsInt(velocity)
    ensures PlayerVelocity(PlayerVelocity(velocity, KEY_LOCATION_LEFT), KEY_LOCATION_RIGHT) == velocity
  {
    WrapAdd(velocity - 1, 1);
  }

  /** `n` demo frames add `2 * n` to the velocity, as Java `int` arithmetic. */
  lemma {:induction false} DemoFramesAccelerate(velocity: int, n: nat)
    requires IsInt(velocity)
    ensures DemoVelocityAfter(velocity, n) == Wrap(velocity + 2 * n)
  {
    if n > 0 {
      DemoFramesAccelerate(velocity, n - 1);
      WrapAdd(velocity + 2 * (n - 1), 2);
    }
  }
}
