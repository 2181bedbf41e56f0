/** Bytes, C text and the bitwise "and" that the other modules share. */
module Bytes {

  /** An 8-bit value. C characters are bytes too, so text is a sequence of them. */
  type byte = b: int | 0 <= b < 256

  type Text = seq<byte>

  datatype Option<+T> = None | Some(value: T)

  const NUL: byte := 0
  const AMPERSAND: byte := 38
  const PLUS: byte := 43
  const MINUS: byte := 45
  const SLASH: byte := 47
  const ZERO: byte := 48
  const EQUALS: byte := 61
  const QUESTION_MARK: byte := 63

  /** Texts with a separator between them. */
  function Joined(parts: seq<Text>, separator: byte): (t: Text) {
    if parts == [] then [] else if |parts| == 1 then parts[0] else parts[0] + [separator] + Joined(parts[1..], separator)
  }

  /** C's `x & mask` on unsigned operands, bit by bit, for a mask of at most eight bits. */
  function BitAnd(x: nat, mask: byte): (n: nat) {
    (if mask % 2 == 1 then x % 2 else 0) +
    (if mask / 2 % 2 == 1 then 2 * (x / 2 % 2) else 0) +
    (if mask / 4 % 2 == 1 then 4 * (x / 4 % 2) else 0) +
    (if mask / 8 % 2 == 1 then 8 * (x / 8 % 2) else 0) +
    (if mask / 16 % 2 == 1 then 16 * (x / 16 % 2) else 0) +
    (if mask / 32 % 2 == 1 then 32 * (x / 32 % 2) else 0) +
    (if mask / 64 % 2 == 1 then 64 * (x / 64 % 2) else 0) +
    (if mask / 128 % 2 == 1 then 128 * (x / 128 % 2) else 0)
  }

  /** The masks a TLV header byte is tested with, as arithmetic. */
  lemma HeaderMasks(x: byte)
    ensures BitAnd(x, 0x07) == x % 8
    ensures BitAnd(x, 0x18) == x / 8 % 4 * 8
    ensures BitAnd(x, 0x20) == x / 32 % 2 * 32
    ensures BitAnd(x, 0xC0) == x / 64 * 64
  {
    LowMask(x);
    MiddleMask(x);
    HighMasks(x);
  }

  lemma LowMask(x: byte)
    ensures BitAnd(x, 0x07) == x % 8
  {
    assert BitAnd(x, 0x07) == x % 2 + 2 * (x / 2 % 2) + 4 * (x / 4 % 2);
    LowBits(x);
  }

  lemma MiddleMask(x: byte)
    ensures BitAnd(x, 0x18) == x / 8 % 4 * 8
  {
    assert BitAnd(x, 0x18) == 8 * (x / 8 % 2) + 16 * (x / 16 % 2);
    LowBits(x / 8);
  }

  lemma LowBits(y: nat)
    ensures y % 4 == y % 2 + 2 * (y / 2 % 2)
    ensures y % 8 == y % 2 + 2 * (y / 2 % 2) + 4 * (y / 4 % 2)
  {
    var a, z := y % 2, y / 2;
    var b, w := z % 2, z / 2;
    var c, v := w % 2, w / 2;
    assert y == 4 * w + (2 * b + a);
    assert y == 8 * v + (4 * c + 2 * b + a);
  }

  lemma HighMasks(x: byte)
    ensures BitAnd(x, 0x20) == x / 32 % 2 * 32
    ensures BitAnd(x, 0xC0) == x / 64 * 64
  {
    assert BitAnd(x, 0xC0) == 64 * (x / 64 % 2) + 128 * (x / 128 % 2);
  }
}
