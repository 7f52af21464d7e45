/** Small arithmetic shared by the components that count and measure time. */
module Numbers {
  /** Times are whole microseconds. */
  const SECOND: int := 1_000_000

  function Max(a: int, b: int): int { if a < b then b else a }

  function Min(a: int, b: int): int { if a < b then a else b }
}
