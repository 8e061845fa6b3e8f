/**
 * Pieces every topic generator shares: the random-integer draw, the four
 * school operators with their exact integer meaning, and hint lines.
 */
module Common {

  datatype Option<T> = None | Some(value: T)

  /** The four operators the questions display: + - × ÷. */
  datatype Op = Plus | Minus | Times | Divide

  /**
   * The exact value of `x op y`.  Division has a value only when it is exact,
   * which is the only kind of division a question may show.
   */
  function Apply(op: Op, x: int, y: int): (r: Option<int>)
    ensures op != Divide ==> r.Some?
    ensures op == Divide ==> (r.Some? <==> y != 0 && x % y == 0)
    ensures op == Divide && r.Some? ==> r.value * y == x
  {
    match op
    case Plus => Some(x + y)
    case Minus => Some(x - y)
    case Times => Some(x * y)
    case Divide => if y != 0 && x % y == 0 then Some(x / y) else None
  }

  /**
   * One line of a hint.  The wording is left out; a line keeps the numbers it
   * shows and, where it shows a calculation, the calculation itself.
   *   Problem(a, op, b)            "a op b = ?"
   *   Equation(x, op, y, z)        "... x op y = z ..."
   *   Note(numbers)                any other line, with the numbers it shows
   */
  datatype HintLine =
    | Problem(a: int, op: Op, b: int)
    | Equation(x: int, eqOp: Op, y: int, z: int)
    | Note(numbers: seq<int>)

  /** A line that shows a calculation shows a correct one. */
  predicate TrueLine(line: HintLine)
  {
    line.Equation? ==> Apply(line.eqOp, line.x, line.y) == Some(line.z)
  }

  /**
   * `randInt(min, max)`: `Math.floor(Math.random() * (max - min + 1)) + min`,
   * where u stands for the value `Math.random()` returned, in [0, 1).
   */
  function RandInt(min: int, max: int, u: real): (r: int)
    requires min <= max && 0.0 <= u < 1.0
    ensures min <= r <= max
  {
    var n := (max - min + 1) as real;
    assert 0.0 <= u * n < n by {
      assert u * n < 1.0 * n;
    }
    (u * n).Floor + min
  }

  /** Every integer of [min, max] is the result of some draw. */
  lemma RandIntCovers(min: int, max: int, v: int)
    requires min <= v <= max
    ensures exists u: real :: 0.0 <= u < 1.0 && RandInt(min, max, u) == v
  {
    var n := (max - min + 1) as real;
    var u := (v - min) as real / n;
    assert u * n == (v - min) as real;
    assert 0.0 <= u < 1.0;
    assert RandInt(min, max, u) == v;
  }
}
