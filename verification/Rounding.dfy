/** The rounding functions the reports use, in exact arithmetic. */
module Rounding {

  /** Python's `round`: to the nearest integer, ties to the even one. */
  function HalfEven(x: real): int {
    var f := x.Floor;
    var d := x - f as real;
    if d < 0.5 || (d == 0.5 && f % 2 == 0) then f else f + 1
  }

  function Round2(x: real): real {
    HalfEven(x * 100.0) as real / 100.0
  }

  function Round3(x: real): real {
    HalfEven(x * 1000.0) as real / 1000.0
  }

  function Round4(x: real): real {
    HalfEven(x * 10000.0) as real / 10000.0
  }

  /** JavaScript's `Math.round(x * 100) / 100`: ties upward. */
  function JsRound2(x: real): real {
    (x * 100.0 + 0.5).Floor as real / 100.0
  }

  predicate WholeCents(x: real) {
    (x * 100.0).Floor as real == x * 100.0
  }

  /** `n` is an integer nearest to `x`, and the even one of two that are equally near. */
  predicate Nearest(x: real, n: int) {
    -0.5 < x - n as real < 0.5 || ((x - n as real == 0.5 || x - n as real == -0.5) && n % 2 == 0)
  }

  lemma HalfEvenIff(x: real, n: int)
    ensures HalfEven(x) == n <==> Nearest(x, n)
  {
  }

  /** `shown` is the whole number that `x` rounds to. */
  predicate Rounded(shown: real, x: real) {
    shown == shown.Floor as real && Nearest(x, shown.Floor)
  }

  /** `shown` is `x` to the cent, to the thousandth, to the ten-thousandth. */
  predicate ToCents(shown: real, x: real) {
    Rounded(shown * 100.0, x * 100.0)
  }

  predicate ToThousandths(shown: real, x: real) {
    Rounded(shown * 1000.0, x * 1000.0)
  }

  predicate ToTenThousandths(shown: real, x: real) {
    Rounded(shown * 10000.0, x * 10000.0)
  }

  lemma RoundedIs(shown: real, x: real)
    requires shown == HalfEven(x) as real
    ensures Rounded(shown, x) && -0.5 <= shown - x <= 0.5
  {
    hide HalfEven;
    HalfEvenIff(x, HalfEven(x));
  }

  lemma Round2Is(x: real)
    ensures ToCents(Round2(x), x) && -0.005 <= Round2(x) - x <= 0.005
  {
    hide HalfEven, Rounded;
    RoundedIs(Round2(x) * 100.0, x * 100.0);
  }

  lemma Round3Is(x: real)
    ensures ToThousandths(Round3(x), x) && -0.0005 <= Round3(x) - x <= 0.0005
  {
    hide HalfEven, Rounded;
    RoundedIs(Round3(x) * 1000.0, x * 1000.0);
  }

  lemma Round4Is(x: real)
    ensures ToTenThousandths(Round4(x), x) && -0.00005 <= Round4(x) - x <= 0.00005
  {
    hide HalfEven, Rounded;
    RoundedIs(Round4(x) * 10000.0, x * 10000.0);
  }

  /** The three roundings of the reports are to cents, to thousandths and to ten-thousandths: to the
      nearest, and to the even one of two. */
  lemma RoundsAre(x: real)
    ensures ToCents(Round2(x), x) && -0.005 <= Round2(x) - x <= 0.005
    ensures ToThousandths(Round3(x), x) && -0.0005 <= Round3(x) - x <= 0.0005
    ensures ToTenThousandths(Round4(x), x) && -0.00005 <= Round4(x) - x <= 0.00005
  {
    hide *;
    Round2Is(x);
    Round3Is(x);
    Round4Is(x);
  }

  lemma RoundedOnce(a: real, b: real, x: real)
    requires Rounded(a, x) && Rounded(b, x)
    ensures a == b
  {
    hide HalfEven;
    HalfEvenIff(x, a.Floor);
    HalfEvenIff(x, b.Floor);
  }

  /** An amount has one figure in cents. */
  lemma CentsUnique(a: real, b: real, x: real)
    requires ToCents(a, x) && ToCents(b, x)
    ensures a == b
  {
    hide Rounded;
    RoundedOnce(a * 100.0, b * 100.0, x * 100.0);
  }

  lemma FloorIs(y: real, n: int)
    ensures y.Floor == n <==> n as real <= y < n as real + 1.0
  {
  }

  lemma CentsDiffer(m: int, n: int)
    ensures m as real / 100.0 == n as real / 100.0 <==> m == n
  {
    assert m as real / 100.0 * 100.0 == m as real && n as real / 100.0 * 100.0 == n as real;
  }

  /** JavaScript's rounding: to the nearest cent, and up from the middle. */
  lemma JsRound2Iff(x: real, n: int)
    ensures JsRound2(x) == n as real / 100.0 <==> n as real - 0.5 <= x * 100.0 < n as real + 0.5
  {
    var y := x * 100.0 + 0.5;
    FloorIs(y, n);
    CentsDiffer(y.Floor, n);
  }

  lemma HalfEvenMonotone(x: real, y: real)
    requires x <= y
    ensures HalfEven(x) <= HalfEven(y)
  {
  }

  lemma JsRound2Near(x: real)
    ensures -0.005 <= JsRound2(x) - x <= 0.005
    ensures WholeCents(x) ==> JsRound2(x) == x
  {
    var y := x * 100.0;
    assert y - 0.5 < (y + 0.5).Floor as real <= y + 0.5;
    if WholeCents(x) {
      assert (y + 0.5).Floor == y.Floor;
    }
  }

  lemma WholeCentsSum(x: real, y: real)
    requires WholeCents(x) && WholeCents(y)
    ensures WholeCents(x + y)
  {
    assert (x + y) * 100.0 == ((x * 100.0).Floor + (y * 100.0).Floor) as real;
  }
}
