/**
 * The input sampler: four pressed-state flags, one per arrow key, written by
 * the key and touch handlers and read once per tick by the game loop. Any key
 * other than the four arrows is ignored.
 */
module Input {

  datatype Option<T> = None | Some(value: T)

  /** The four directional controls. */
  datatype Control = ArrowUp | ArrowDown | ArrowLeft | ArrowRight

  /** A snapshot of the four flags, as the tick reads them. */
  datatype KeyFlags = KeyFlags(up: bool, down: bool, left: bool, right: bool)

  const NO_KEYS: KeyFlags := KeyFlags(false, false, false, false)

  /** The key identifier an event carries for each control. */
  function KeyName(c: Control): (name: string)
  {
    match c
    case ArrowUp => "ArrowUp"
    case ArrowDown => "ArrowDown"
    case ArrowLeft => "ArrowLeft"
    case ArrowRight => "ArrowRight"
  }

  /**
   * The control a key identifier names, if any: the `hasOwnProperty` test on
   * the flags object. It recognises exactly the names `KeyName` gives.
   */
  function ControlOf(key: string): (c: Option<Control>)
    ensures c.Some? ==> KeyName(c.value) == key
    ensures c.None? ==> forall d: Control :: KeyName(d) != key
  {
    if key == "ArrowUp" then Some(ArrowUp)
    else if key == "ArrowDown" then Some(ArrowDown)
    else if key == "ArrowLeft" then Some(ArrowLeft)
    else if key == "ArrowRight" then Some(ArrowRight)
    else None
  }

  /** The flag of one control in a snapshot. */
  function Pressed(f: KeyFlags, c: Control): (held: bool)
  {
    match c
    case ArrowUp => f.up
    case ArrowDown => f.down
    case ArrowLeft => f.left
    case ArrowRight => f.right
  }

  /**
   * The effect of one handler call on the flags: the flag of the control the
   * key names becomes `pressed`; every other flag keeps its value, and a key
   * that names no control leaves the snapshot as it was.
   */
  function WithKey(f: KeyFlags, key: string, pressed: bool): (r: KeyFlags)
    ensures forall c: Control :: Pressed(r, c) == if ControlOf(key) == Some(c) then pressed else Pressed(f, c)
    ensures ControlOf(key).None? ==> r == f
  {
    match ControlOf(key)
    case None => f
    case Some(ArrowUp) => f.(up := pressed)
    case Some(ArrowDown) => f.(down := pressed)
    case Some(ArrowLeft) => f.(left := pressed)
    case Some(ArrowRight) => f.(right := pressed)
  }

  /** Two snapshots that agree on every control are the same snapshot. */
  lemma FlagsExtensional(f: KeyFlags, g: KeyFlags)
    requires forall c: Control :: Pressed(f, c) == Pressed(g, c)
    ensures f == g
  {
    assert f.up == Pressed(f, ArrowUp) == Pressed(g, ArrowUp);
    assert f.down == Pressed(f, ArrowDown) == Pressed(g, ArrowDown);
    assert f.left == Pressed(f, ArrowLeft) == Pressed(g, ArrowLeft);
    assert f.right == Pressed(f, ArrowRight) == Pressed(g, ArrowRight);
  }

  /** For one key, the last handler call wins: an earlier press or release is forgotten. */
  lemma LastWriteWins(f: KeyFlags, key: string, a: bool, b: bool)
    ensures WithKey(WithKey(f, key, a), key, b) == WithKey(f, key, b)
  {
  }

  /** Handler calls for two different keys do not interfere, whatever their order. */
  lemma DistinctKeysCommute(f: KeyFlags, k1: string, a: bool, k2: string, b: bool)
    requires k1 != k2
    ensures WithKey(WithKey(f, k1, a), k2, b) == WithKey(WithKey(f, k2, b), k1, a)
  {
    FlagsExtensional(WithKey(WithKey(f, k1, a), k2, b), WithKey(WithKey(f, k2, b), k1, a));
  }

  /**
   * The shared flags object the handlers mutate in place. Keyboard and touch
   * events go through the same update, so both sources drive a control alike.
   */
  class Keys {
    var up: bool
    var down: bool
    var left: bool
    var right: bool

    function Flags(): KeyFlags
      reads this
    {
      KeyFlags(up, down, left, right)
    }

    /** All four flags start released. */
    constructor ()
      ensures Flags() == NO_KEYS
    {
      up, down, left, right := false, false, false, false;
    }

    method Set(key: string, pressed: bool)
      modifies this
      ensures Flags() == WithKey(old(Flags()), key, pressed)
    {
      match ControlOf(key)
      case None =>
      case Some(ArrowUp) => up := pressed;
      case Some(ArrowDown) => down := pressed;
      case Some(ArrowLeft) => left := pressed;
      case Some(ArrowRight) => right := pressed;
    }

    /** A key-down event: the named arrow becomes held; any other key is ignored. */
    method KeyDown(key: string)
      modifies this
      ensures Flags() == WithKey(old(Flags()), key, true)
    {
      Set(key, true);
    }

    /** A key-up event: the named arrow is released; any other key is ignored. */
    method KeyUp(key: string)
      modifies this
      ensures Flags() == WithKey(old(Flags()), key, false)
    {
      Set(key, false);
    }

    /** A touch on an on-screen button: the same update as a key-down. */
    method TouchStart(key: string)
      modifies this
      ensures Flags() == WithKey(old(Flags()), key, true)
    {
      Set(key, true);
    }

    /** The end of a touch on an on-screen button: the same update as a key-up. */
    method TouchEnd(key: string)
      modifies this
      ensures Flags() == WithKey(old(Flags()), key, false)
    {
      Set(key, false);
    }
  }
}
