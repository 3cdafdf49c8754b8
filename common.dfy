/** Types shared by the two LED drivers of Pixel.cpp. */
module Common {

  /** An 8-bit unsigned value: one colour channel or one byte sent to a strip. */
  type byte = x: int | 0 <= x < 0x100

  /** An `uint8_t` GPIO pin number. */
  type uint8 = x: int | 0 <= x < 0x100

  /** An `uint32_t`, such as the reset delay in microseconds. */
  type uint32 = x: int | 0 <= x < 0x1_0000_0000

  datatype Option<T> = None | Some(value: T)

  /**
   * A colour as the drivers read it: the single-wire driver reads the byte
   * view `col`, the two-wire driver the 32-bit view `val`. How the two views
   * overlap in memory is fixed by a header that is not part of this model, so
   * they are kept independent here.
   */
  datatype Color = Color(col: seq<byte>, val: bv32)

  function Min(a: int, b: int): int { if a < b then a else b }

  function Max(a: int, b: int): int { if a < b then b else a }

  /**
   * Index of the colour that pixel `k` is drawn from: both drivers advance
   * the colour pointer by `multiColor` (1 or 0) after every pixel.
   */
  function Pos(k: nat, multiColor: bool): nat { if multiColor then k else 0 }

  /** A non-empty sequence is its front followed by its last element. */
  lemma SplitLast<T>(s: seq<T>)
    requires s != []
    ensures s[..|s| - 1] + [s[|s| - 1]] == s
  {
  }

  /** Appending to a log in two steps is appending once. */
  lemma Associative<T>(a: seq<T>, b: seq<T>, c: seq<T>)
    ensures (a + b) + c == a + (b + c)
  {
  }
}
