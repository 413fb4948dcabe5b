/** The smaller and the larger of two numbers. */
module Numbers {
  function Min(a: int, b: int): int { if b < a then b else a }

  function Max(a: int, b: int): int { if a < b then b else a }
}
