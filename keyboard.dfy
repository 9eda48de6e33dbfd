/** The keyboard snapshot of the game engine: one state per key code and a
    range-checked query for whether a key is held down. */
module Keyboard {

  /** The first key code; it names no key. */
  const KC_NONE: int := 0
  /** One past the last key code. The key-code table is not part of this
      model, so the value stands in for its size; the proofs use only
      KC_NONE < KC_MAX. */
  const KC_MAX: int := 256

  /** Key states. */
  const STATE_NULL: int := 0
  const STATE_PRESSED: int := 1
  const STATE_RELEASED: int := 2

  const INT32_MIN: int := -0x8000_0000
  const INT32_MAX: int := 0x7fff_ffff

  /** The 32-bit two's-complement pattern of a C `int`. */
  function Int32Bits(x: int): bv32
    requires INT32_MIN <= x <= INT32_MAX
  {
    ((x + 0x1_0000_0000) % 0x1_0000_0000) as bv32
  }

  /** The C test `(state & flag) != 0` on a 32-bit `int`. */
  predicate HasStateFlag(state: int, flag: int)
    requires INT32_MIN <= state <= INT32_MAX && INT32_MIN <= flag <= INT32_MAX
  {
    Int32Bits(state) & Int32Bits(flag) != 0
  }

  /** The lowest bit of a two's-complement `int` is its parity, as
      Euclidean remainder gives it for negative values too. */
  lemma LowBitIsParity(x: int)
    requires INT32_MIN <= x <= INT32_MAX
    ensures HasStateFlag(x, STATE_PRESSED) <==> x % 2 == 1
  {
    var n: nat := (x + 0x1_0000_0000) % 0x1_0000_0000;
    assert n % 2 == x % 2;
    assert Int32Bits(STATE_PRESSED) == 1;
    var b := n as bv32;
    assert b & 1 == b % 2;
    assert (b % 2) as int == n % 2;
  }

  class KeyboardDevice {
    var wasPressed: bool
    var wasReleased: bool
    var keyCount: int
    /** The state of each key, indexed by key code. */
    var keys: array<int>

    /** One 32-bit state per key code. */
    ghost predicate Valid()
      reads this, keys
    {
      && keys.Length == KC_MAX
      && forall k :: 0 <= k < keys.Length ==> INT32_MIN <= keys[k] <= INT32_MAX
    }

    /** A device with every key in the null state and no event recorded;
        it reports no key down. */
    constructor ()
      ensures Valid() && fresh(keys)
      ensures !wasPressed && !wasReleased && keyCount == 0
      ensures forall k :: 0 <= k < keys.Length ==> keys[k] == STATE_NULL
      ensures forall key :: !IsKeyDown(key)
    {
      wasPressed := false;
      wasReleased := false;
      keyCount := 0;
      keys := new int[KC_MAX](_ => STATE_NULL);
    }

    /** Whether a key is held down: an in-range key whose state has the
        pressed flag; a key code out of range is never down. */
    function IsKeyDown(key: int): (down: bool)
      requires Valid()
      reads this, keys
      ensures !(KC_NONE < key < KC_MAX) ==> !down
      ensures KC_NONE < key < KC_MAX ==> (down <==> HasStateFlag(keys[key], STATE_PRESSED))
      ensures KC_NONE < key < KC_MAX && keys[key] == STATE_PRESSED ==> down
      ensures KC_NONE < key < KC_MAX && (keys[key] == STATE_NULL || keys[key] == STATE_RELEASED) ==> !down
    {
      if KC_NONE < key < KC_MAX then
        LowBitIsParity(keys[key]);
        keys[key] % 2 == 1
      else
        false
    }
  }
}
