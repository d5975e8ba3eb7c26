/**
 * The language's numbers are IEEE doubles. The model keeps the number type
 * abstract: every operation the scanner and the interpreter apply to numbers
 * is a field of a `NumOps` record, so no property proved here depends on
 * floating-point arithmetic.
 */
module Numbers {

  datatype NumOps<!N> = NumOps(
    /** `parseFloat` applied to a numeral lexeme. */
    parse: string -> N,
    /** Unary `-`. */
    neg: N -> N,
    add: (N, N) -> N,
    sub: (N, N) -> N,
    mul: (N, N) -> N,
    /** Division; what it does on a zero divisor is left to the instance. */
    div: (N, N) -> N,
    greater: (N, N) -> bool,
    greaterEq: (N, N) -> bool,
    less: (N, N) -> bool,
    lessEq: (N, N) -> bool,
    /** Strict equality `===` on two numbers. */
    eq: (N, N) -> bool,
    /** `String(n)`, the text a number becomes when concatenated. */
    show: N -> string
  )
}

/**
 * Whole numbers as an instance of the number operations, for worked examples
 * only: numerals must be digits alone and are read as decimal integers;
 * division is Euclidean, and 0 on a zero divisor. The examples never divide.
 */
module IntNumbers {
  import opened Numbers

  function DigitValue(c: char): int {
    c as int - '0' as int
  }

  /** The value of a run of decimal digits, most significant first. */
  function DecimalValue(s: string): int {
    if |s| == 0 then 0 else 10 * DecimalValue(s[..|s| - 1]) + DigitValue(s[|s| - 1])
  }

  function DigitChar(d: int): char
    requires 0 <= d < 10
  {
    ('0' as int + d) as char
  }

  /** Decimal text of a whole number, with a leading `-` when negative. */
  function Decimal(n: int): string
    decreases if n < 0 then 1 - n else n
  {
    if n < 0 then "-" + Decimal(-n)
    else if n < 10 then [DigitChar(n)]
    else Decimal(n / 10) + [DigitChar(n % 10)]
  }

  /** Reading back the text of a natural number gives the number. */
  lemma {:induction false} DecimalRoundTrip(n: nat)
    ensures DecimalValue(Decimal(n)) == n
    decreases n
  {
    if n >= 10 {
      DecimalRoundTrip(n / 10);
      var s := Decimal(n);
      assert s[..|s| - 1] == Decimal(n / 10);
    }
  }

  function IntArith(): NumOps<int> {
    NumOps(
      DecimalValue,
      n => -n,
      (a, b) => a + b,
      (a, b) => a - b,
      (a, b) => a * b,
      (a, b) => if b == 0 then 0 else a / b,
      (a, b) => a > b,
      (a, b) => a >= b,
      (a, b) => a < b,
      (a, b) => a <= b,
      (a, b) => a == b,
      Decimal)
  }
}
