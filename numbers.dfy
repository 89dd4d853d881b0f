/** Integer helpers shared by the scoring and ranking code. */
module Numbers {

  /** `Math.min(a, b)`. */
  function Min(a: int, b: int): int {
    if a <= b then a else b
  }
}
