/**
 * The arithmetic topic (generateArithmetic.ts): one question of each of the
 * four operations, built from random draws so that the answer is always a
 * whole number, never negative, and shown with a hint.
 *
 * The draws `randInt` would return are parameters, each required to lie in
 * the range the source draws it from.
 */
module Arithmetic {
  import opened Common
  import opened DecimalDigits

  datatype Question = Question(a: int, b: int, op: Op, answer: int, hint: seq<HintLine>)

  /**
   * What every arithmetic question satisfies: `a op b` is exactly the
   * answer, the hint opens with "a op b = ?", and every calculation the hint
   * shows is correct.
   */
  predicate Sound(q: Question)
  {
    && Apply(q.op, q.a, q.b) == Some(q.answer)
    && |q.hint| >= 2
    && q.hint[0] == Problem(q.a, q.op, q.b)
    && (forall i | 0 <= i < |q.hint| :: TrueLine(q.hint[i]))
  }

  /** `generateAddition`: a and b drawn from [10, 99]. */
  function GenerateAddition(a: int, b: int): (q: Question)
    requires 10 <= a <= 99 && 10 <= b <= 99
    ensures Sound(q) && q.op == Plus && q.a == a && q.b == b
    ensures 20 <= q.answer <= 198
  {
    var answer := a + b;
    Question(a, b, Plus, answer, [Problem(a, Plus, b), Equation(a, Plus, b, answer)])
  }

  /**
   * `generateSubtraction`: built backwards from the answer (drawn from
   * [5, 80]) and b (drawn from [5, 50]), so a - b is never negative.
   */
  function GenerateSubtraction(answer: int, b: int): (q: Question)
    requires 5 <= answer <= 80 && 5 <= b <= 50
    ensures Sound(q) && q.op == Minus && q.b == b && q.answer == answer
    ensures q.a - q.b == q.answer >= 5 && q.a >= q.b
  {
    var a := answer + b;
    Question(a, b, Minus, answer, [Problem(a, Minus, b), Equation(a, Minus, b, answer)])
  }

  /** `generateMultiplication`: a and b drawn from [2, 10]; the hint adds "a times b". */
  function GenerateMultiplication(a: int, b: int): (q: Question)
    requires 2 <= a <= 10 && 2 <= b <= 10
    ensures Sound(q) && q.op == Times && q.a == a && q.b == b
    ensures 4 <= q.answer <= 100 && |q.hint| == 3
  {
    var answer := a * b;
    Question(a, b, Times, answer, [Problem(a, Times, b), Equation(a, Times, b, answer), Note([a, b])])
  }

  /**
   * `generateDivision`: the divisor b and the answer are drawn from [2, 10]
   * and a is their product, so the division is always exact.
   */
  function GenerateDivision(b: int, answer: int): (q: Question)
    requires 2 <= b <= 10 && 2 <= answer <= 10
    ensures Sound(q) && q.op == Divide && q.b == b && q.answer == answer
    ensures q.a % q.b == 0 && q.a / q.b == q.answer && |q.hint| == 4
  {
    var a := b * answer;
    DivisionIsExact(a, b, answer);
    Question(a, b, Divide, answer,
             [Problem(a, Divide, b), Note([b, a]), Equation(b, Times, answer, a), Equation(a, Divide, b, answer)])
  }

  /** A product divided by one of its factors leaves no remainder and gives the other. */
  lemma DivisionIsExact(a: int, b: int, answer: int)
    requires b > 0 && a == b * answer
    ensures a % b == 0 && a / b == answer
  {
    DivUnique(a, b, answer, 0);
  }

  /**
   * One slot of `generateQuestions`: which generator `Math.floor(Math.random() * 4)`
   * picked, and the two values it drew, in the order it draws them.
   */
  datatype Slot = Slot(kind: nat, first: int, second: int)

  predicate ValidSlot(s: Slot)
  {
    match s.kind
    case 0 => 10 <= s.first <= 99 && 10 <= s.second <= 99
    case 1 => 5 <= s.first <= 80 && 5 <= s.second <= 50
    case 2 => 2 <= s.first <= 10 && 2 <= s.second <= 10
    case 3 => 2 <= s.first <= 10 && 2 <= s.second <= 10
    case _ => false
  }

  /** `generateQuestion`: run the generator the slot picked. */
  function GenerateQuestion(s: Slot): (q: Question)
    requires ValidSlot(s)
    ensures Sound(q)
    ensures q.op == [Plus, Minus, Times, Divide][s.kind]
    ensures q.answer >= 2 && (q.op == Minus ==> q.answer >= 5)
  {
    match s.kind
    case 0 => GenerateAddition(s.first, s.second)
    case 1 => GenerateSubtraction(s.first, s.second)
    case 2 => GenerateMultiplication(s.first, s.second)
    case 3 => GenerateDivision(s.first, s.second)
  }

  /** `generateQuestions(count)`: one question per slot. */
  function GenerateQuestions(count: nat, slots: seq<Slot>): (qs: seq<Question>)
    requires |slots| == count
    requires forall i | 0 <= i < count :: ValidSlot(slots[i])
    ensures |qs| == count
    ensures forall i | 0 <= i < count :: Sound(qs[i]) && qs[i] == GenerateQuestion(slots[i])
  {
    seq(count, i requires 0 <= i < count => GenerateQuestion(slots[i]))
  }
}
