/** Small functions on numbers, and the machine word of the program's `size_t`. */
module Numbers {
  const WORD: nat := 0x1_0000_0000_0000_0000

  /** Arithmetic on these wraps around. */
  type Size = n: nat | n < WORD

  function Min(a: int, b: int): int { if b < a then b else a }
  function Max(a: int, b: int): int { if a < b then b else a }

  function Lower(a: real, b: real): real { if b < a then b else a }
  function Higher(a: real, b: real): real { if b > a then b else a }

  /** Multiplication under a name, so that equal factors give equal products at once. */
  function Times(a: real, b: real): real { a * b }

  function Clamp01(x: real): real {
    if x < 0.0 then 0.0 else if x > 1.0 then 1.0 else x
  }
}
