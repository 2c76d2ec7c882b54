/** The smaller and the larger of two numbers. */
module Numbers {

  function Min(x: int, y: int): int { if x < y then x else y }

  function Max(x: int, y: int): int { if x > y then x else y }

}
