/** The arithmetic of the handlers, over exact numbers. */
module JsNumber {

  /** `Number(v)`: a number, or something `Number.isFinite` rejects. */
  datatype Num = NotFinite | Finite(r: real)

  /** `Math.round`: to the nearest integer, halves up. */
  function Round(x: real): int {
    (x + 0.5).Floor
  }

  lemma RoundNear(x: real)
    ensures x - 0.5 < Round(x) as real <= x + 0.5
  {
  }

  lemma RoundMonotone(x: real, y: real)
    requires x <= y
    ensures Round(x) <= Round(y)
  {
  }

  lemma RoundOfInt(n: int)
    ensures Round(n as real) == n
  {
  }
}
