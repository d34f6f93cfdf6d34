/** The JavaScript number arithmetic the pantry handlers rely on: the value
    of `Number(field)` for the quantity form field, `a + b` on numbers, and
    the `x || 1` fallback. Quantities are whole numbers here and sums are
    exact; fractions, infinities and the rounding of sums beyond 2^53 are
    not modelled. */
module JsNumber {

  /** The result of `Number(...)`: a whole number or NaN. */
  datatype JsNum = Num(value: int) | NaN

  /** JavaScript truthiness of a number: 0 and NaN are falsy, every other
      number is truthy. */
  predicate Truthy(x: JsNum) {
    x.Num? && x.value != 0
  }

  /** Numeric `a + b`: NaN on either side makes the sum NaN. */
  function Plus(a: JsNum, b: JsNum): (r: JsNum)
    ensures r.NaN? <==> a.NaN? || b.NaN?
  {
    if a.Num? && b.Num? then Num(a.value + b.value) else NaN
  }

  /** `x || 1` on a number: a falsy number (0 or NaN) gives way to 1. */
  function OrOne(x: JsNum): (r: JsNum)
    ensures Truthy(r)
    ensures Truthy(x) ==> r == x
    ensures !Truthy(x) ==> r == Num(1)
  {
    if Truthy(x) then x else Num(1)
  }

  /** The quantity form field: left blank (the empty string) or holding an
      entry whose `Number(...)` coercion is `coerced`. A field filled from a
      stored item holds a number, which `Number` returns as it is. */
  datatype QuantityField = Blank | Entered(coerced: JsNum)

  /** `Number(field)`; `Number('')` is 0. */
  function ToNumber(f: QuantityField): (n: JsNum)
    ensures f == Blank ==> n == Num(0)
    ensures f.Entered? ==> n == f.coerced
  {
    match f
    case Blank => Num(0)
    case Entered(n) => n
  }

  /** Adding a blank field leaves a number as it was; adding NaN poisons it. */
  lemma PlusBlankOrNaN(a: JsNum)
    ensures Plus(a, ToNumber(Blank)) == a
    ensures Plus(a, ToNumber(Entered(NaN))) == NaN
  {
  }

  /** Blank, zero and NaN entries all fall back to 1; any other entry,
      negative ones included, is kept. */
  lemma OrOneOfField(f: QuantityField)
    ensures f == Blank || f == Entered(Num(0)) || f == Entered(NaN) ==> OrOne(ToNumber(f)) == Num(1)
    ensures f.Entered? && f.coerced.Num? && f.coerced.value != 0 ==> OrOne(ToNumber(f)) == f.coerced
  {
  }
}
