/**
 * The order-of-operations topic (generateOrderOfOps.ts): six expression
 * shapes, each built from random draws together with its answer and the
 * calculation steps of its hint.
 *
 * The displayed expression is kept as a token sequence, and an independent
 * evaluator reads it the way the topic teaches: parentheses first, then ×
 * and ÷ from left to right, then + and − from left to right.  Each shape's
 * answer is proved equal to that evaluation.
 */
module OrderOfOps {
  import opened Common
  import opened DecimalDigits

  /** One symbol of a displayed expression. */
  datatype Token = Num(n: int) | Sym(op: Op) | Open | Close

  /*
   * A recursive-descent reader for
   *   expr   := term (("+" | "-") term)*
   *   term   := factor (("×" | "÷") factor)*
   *   factor := number | "(" expr ")"
   * Each reader returns the value read and the tokens left over; ÷ has a value
   * only when it is exact.
   */

  function ParseExpr(t: seq<Token>): (r: Option<(int, seq<Token>)>)
    ensures r.Some? ==> |r.value.1| < |t|
    decreases |t|, 2
  {
    match ParseTerm(t)
    case None => None
    case Some((v, rest)) => ExprTail(v, rest)
  }

  function ExprTail(acc: int, t: seq<Token>): (r: Option<(int, seq<Token>)>)
    ensures r.Some? ==> |r.value.1| <= |t|
    decreases |t|, 0
  {
    if |t| > 0 && t[0].Sym? && (t[0].op == Plus || t[0].op == Minus) then
      match ParseTerm(t[1..])
      case None => None
      case Some((v, rest)) =>
        ExprTail(if t[0].op == Plus then acc + v else acc - v, rest)
    else
      Some((acc, t))
  }

  function ParseTerm(t: seq<Token>): (r: Option<(int, seq<Token>)>)
    ensures r.Some? ==> |r.value.1| < |t|
    decreases |t|, 1
  {
    match ParseFactor(t)
    case None => None
    case Some((v, rest)) => TermTail(v, rest)
  }

  function TermTail(acc: int, t: seq<Token>): (r: Option<(int, seq<Token>)>)
    ensures r.Some? ==> |r.value.1| <= |t|
    decreases |t|, 0
  {
    if |t| > 0 && t[0].Sym? && (t[0].op == Times || t[0].op == Divide) then
      match ParseFactor(t[1..])
      case None => None
      case Some((v, rest)) =>
        match Apply(t[0].op, acc, v)
        case None => None
        case Some(w) => TermTail(w, rest)
    else
      Some((acc, t))
  }

  function ParseFactor(t: seq<Token>): (r: Option<(int, seq<Token>)>)
    ensures r.Some? ==> |r.value.1| < |t|
    decreases |t|, 0
  {
    if |t| == 0 then None
    else if t[0].Num? then Some((t[0].n, t[1..]))
    else if t[0].Open? then
      match ParseExpr(t[1..])
      case None => None
      case Some((v, rest)) =>
        if |rest| > 0 && rest[0].Close? then Some((v, rest[1..])) else None
    else None
  }

  /** The value of a whole displayed expression, if it reads completely. */
  function Evaluate(t: seq<Token>): Option<int>
  {
    match ParseExpr(t)
    case Some((v, rest)) => if rest == [] then Some(v) else None
    case None => None
  }

  /** A question: the expression shown, its answer and the hint's steps. */
  datatype Question = Question(expression: seq<Token>, answer: int, steps: seq<HintLine>)

  /**
   * What every question satisfies: the expression, read with the usual
   * precedence, is the answer; every step shows a correct calculation; and
   * the last step arrives at the answer.
   */
  predicate Sound(q: Question)
  {
    && Evaluate(q.expression) == Some(q.answer)
    && |q.steps| >= 2
    && (forall i | 0 <= i < |q.steps| :: TrueLine(q.steps[i]))
    && q.steps[|q.steps| - 1].Equation?
    && q.steps[|q.steps| - 1].z == q.answer
  }

  /*
   * Reading lemmas: how the reader consumes the pieces the six shapes are
   * made of.  Each takes the tokens that follow as `rest`.
   */

  /** A number followed by something that is not × or ÷ is a complete term. */
  lemma TermOfNumber(n: int, rest: seq<Token>)
    requires rest == [] || !rest[0].Sym? || rest[0].op == Plus || rest[0].op == Minus
    ensures ParseTerm([Num(n)] + rest) == Some((n, rest))
  {
    assert ([Num(n)] + rest)[1..] == rest;
  }

  /** `x op y` with op × or ÷, followed by something that is not × or ÷. */
  lemma TermOfProduct(x: int, op: Op, y: int, rest: seq<Token>)
    requires op == Times || op == Divide
    requires Apply(op, x, y).Some?
    requires rest == [] || !rest[0].Sym? || rest[0].op == Plus || rest[0].op == Minus
    ensures ParseTerm([Num(x), Sym(op), Num(y)] + rest) == Some((Apply(op, x, y).value, rest))
  {
    var t := [Num(x), Sym(op), Num(y)] + rest;
    var w := Apply(op, x, y).value;
    assert t[1..] == [Sym(op), Num(y)] + rest;
    assert t[1..][1..] == [Num(y)] + rest;
    assert ([Num(y)] + rest)[1..] == rest;
    assert ParseFactor(t) == Some((x, t[1..]));
    assert ParseFactor(t[1..][1..]) == Some((y, rest));
    assert TermTail(w, rest) == Some((w, rest));
    assert TermTail(x, t[1..]) == TermTail(w, rest);
  }

  /** `x op y` with op + or −, followed by something that is not an operator. */
  lemma ExprOfPair(x: int, op: Op, y: int, rest: seq<Token>)
    requires op == Plus || op == Minus
    requires rest == [] || !rest[0].Sym?
    ensures ParseExpr([Num(x), Sym(op), Num(y)] + rest) == Some((Apply(op, x, y).value, rest))
  {
    var afterX := [Sym(op), Num(y)] + rest;
    assert [Num(x), Sym(op), Num(y)] + rest == [Num(x)] + afterX;
    TermOfNumber(x, afterX);
    assert afterX[1..] == [Num(y)] + rest;
    TermOfNumber(y, rest);
    assert ExprTail(x, afterX) == ExprTail(Apply(op, x, y).value, rest);
  }

  /** A parenthesised `x op y` with op + or −. */
  lemma FactorOfParen(x: int, op: Op, y: int, rest: seq<Token>)
    requires op == Plus || op == Minus
    ensures ParseFactor([Open, Num(x), Sym(op), Num(y), Close] + rest)
         == Some((Apply(op, x, y).value, rest))
  {
    var t := [Open, Num(x), Sym(op), Num(y), Close] + rest;
    var afterY := [Close] + rest;
    assert t[1..] == [Num(x), Sym(op), Num(y)] + afterY;
    ExprOfPair(x, op, y, afterY);
    assert afterY[1..] == rest;
  }

  /** After a complete first term with value v, `+ term` or `− term` ends the expression. */
  lemma ExprOfTwoTerms(v: int, op: Op, second: seq<Token>, w: int)
    requires op == Plus || op == Minus
    requires ParseTerm(second) == Some((w, []))
    ensures ExprTail(v, [Sym(op)] + second) == Some((Apply(op, v, w).value, []))
  {
    assert ([Sym(op)] + second)[1..] == second;
  }

  /** Shape 1: `a + b × c`. */
  function GenType1(b: int, c: int, a: int): (q: Question)
    requires 2 <= b <= 9 && 2 <= c <= 9 && 1 <= a <= 20
    ensures Sound(q)
    ensures q.expression == [Num(a), Sym(Plus), Num(b), Sym(Times), Num(c)]
    ensures q.answer == a + b * c && 5 <= q.answer <= 101
    ensures q.steps[0] == Equation(b, Times, c, b * c)
  {
    var product := b * c;
    var answer := a + product;
    var e := [Num(a), Sym(Plus), Num(b), Sym(Times), Num(c)];
    Type1Reads(a, b, c);
    Question(e, answer, [Equation(b, Times, c, product), Equation(a, Plus, product, answer)])
  }

  lemma Type1Reads(a: int, b: int, c: int)
    ensures Evaluate([Num(a), Sym(Plus), Num(b), Sym(Times), Num(c)]) == Some(a + b * c)
  {
    var e := [Num(a), Sym(Plus), Num(b), Sym(Times), Num(c)];
    var second := [Num(b), Sym(Times), Num(c)];
    assert e == [Num(a)] + ([Sym(Plus)] + second);
    TermOfNumber(a, [Sym(Plus)] + second);
    TermOfProduct(b, Times, c, []);
    assert second + [] == second;
    ExprOfTwoTerms(a, Plus, second, b * c);
    assert ParseExpr(e) == Some((a + b * c, []));
  }

  /** Shape 2: `a × b − c`, with c drawn from [1, a·b − 1] so the answer is positive. */
  function GenType2(a: int, b: int, c: int): (q: Question)
    requires 2 <= a <= 9 && 2 <= b <= 9 && 1 <= c <= a * b - 1
    ensures Sound(q)
    ensures q.expression == [Num(a), Sym(Times), Num(b), Sym(Minus), Num(c)]
    ensures q.answer == a * b - c >= 1
    ensures q.steps[0] == Equation(a, Times, b, a * b)
  {
    var product := a * b;
    var answer := product - c;
    var e := [Num(a), Sym(Times), Num(b), Sym(Minus), Num(c)];
    Type2Reads(a, b, c);
    Question(e, answer, [Equation(a, Times, b, product), Equation(product, Minus, c, answer)])
  }

  lemma Type2Reads(a: int, b: int, c: int)
    ensures Evaluate([Num(a), Sym(Times), Num(b), Sym(Minus), Num(c)]) == Some(a * b - c)
  {
    var e := [Num(a), Sym(Times), Num(b), Sym(Minus), Num(c)];
    assert e == [Num(a), Sym(Times), Num(b)] + ([Sym(Minus)] + [Num(c)]);
    TermOfProduct(a, Times, b, [Sym(Minus)] + [Num(c)]);
    TermOfNumber(c, []);
    assert [Num(c)] + [] == [Num(c)];
    ExprOfTwoTerms(a * b, Minus, [Num(c)], c);
    assert ParseExpr(e) == Some((a * b - c, []));
  }

  function Min(x: int, y: int): int
  {
    if x <= y then x else y
  }

  /** Shape 3: `a + b × c − d`, with d drawn from [1, min(a + b·c − 1, 15)]. */
  function GenType3(b: int, c: int, a: int, d: int): (q: Question)
    requires 2 <= b <= 8 && 2 <= c <= 8 && 1 <= a <= 15
    requires 1 <= d <= Min(a + b * c - 1, 15)
    ensures Sound(q) && |q.steps| == 3
    ensures q.expression == [Num(a), Sym(Plus), Num(b), Sym(Times), Num(c), Sym(Minus), Num(d)]
    ensures q.answer == a + b * c - d >= 1
    ensures q.steps[0] == Equation(b, Times, c, b * c)
  {
    var product := b * c;
    var sum := a + product;
    var answer := sum - d;
    var e := [Num(a), Sym(Plus), Num(b), Sym(Times), Num(c), Sym(Minus), Num(d)];
    Type3Reads(a, b, c, d);
    Question(e, answer,
             [Equation(b, Times, c, product), Equation(a, Plus, product, sum), Equation(sum, Minus, d, answer)])
  }

  lemma Type3Reads(a: int, b: int, c: int, d: int)
    ensures Evaluate([Num(a), Sym(Plus), Num(b), Sym(Times), Num(c), Sym(Minus), Num(d)]) == Some(a + b * c - d)
  {
    var e := [Num(a), Sym(Plus), Num(b), Sym(Times), Num(c), Sym(Minus), Num(d)];
    var afterA := [Sym(Plus), Num(b), Sym(Times), Num(c), Sym(Minus), Num(d)];
    var afterProduct := [Sym(Minus), Num(d)];
    assert e == [Num(a)] + afterA;
    TermOfNumber(a, afterA);
    assert afterA[1..] == [Num(b), Sym(Times), Num(c)] + afterProduct;
    TermOfProduct(b, Times, c, afterProduct);
    assert afterProduct[1..] == [Num(d)] + [];
    TermOfNumber(d, []);
    assert ExprTail(a, afterA) == ExprTail(a + b * c, afterProduct);
    assert ExprTail(a + b * c, afterProduct) == ExprTail(a + b * c - d, []);
  }

  /** Shape 4: `(a + b) × c`. */
  function GenType4(a: int, b: int, c: int): (q: Question)
    requires 2 <= a <= 10 && 2 <= b <= 10 && 2 <= c <= 6
    ensures Sound(q)
    ensures q.expression == [Open, Num(a), Sym(Plus), Num(b), Close, Sym(Times), Num(c)]
    ensures q.answer == (a + b) * c && 8 <= q.answer <= 120
    ensures q.steps[0] == Equation(a, Plus, b, a + b)
  {
    var paren := a + b;
    var answer := paren * c;
    var e := [Open, Num(a), Sym(Plus), Num(b), Close, Sym(Times), Num(c)];
    Type4Reads(a, b, c);
    Question(e, answer, [Equation(a, Plus, b, paren), Equation(paren, Times, c, answer)])
  }

  lemma Type4Reads(a: int, b: int, c: int)
    ensures Evaluate([Open, Num(a), Sym(Plus), Num(b), Close, Sym(Times), Num(c)]) == Some((a + b) * c)
  {
    var e := [Open, Num(a), Sym(Plus), Num(b), Close, Sym(Times), Num(c)];
    var afterParen := [Sym(Times), Num(c)];
    assert e == [Open, Num(a), Sym(Plus), Num(b), Close] + afterParen;
    FactorOfParen(a, Plus, b, afterParen);
    assert ParseFactor(e) == Some((a + b, afterParen));
    assert afterParen[1..] == [Num(c)];
    assert ParseFactor([Num(c)]) == Some((c, []));
    assert TermTail(a + b, afterParen) == TermTail((a + b) * c, []);
    assert ParseTerm(e) == Some(((a + b) * c, []));
    assert ParseExpr(e) == Some(((a + b) * c, []));
  }

  /** Shape 5: `a × (b − c)`, with b drawn from [c + 2, 15] so the parentheses hold at least 2. */
  function GenType5(c: int, b: int, a: int): (q: Question)
    requires 1 <= c <= 8 && c + 2 <= b <= 15 && 2 <= a <= 7
    ensures Sound(q)
    ensures q.expression == [Num(a), Sym(Times), Open, Num(b), Sym(Minus), Num(c), Close]
    ensures q.answer == a * (b - c) && b - c >= 2 && q.answer >= 4
    ensures q.steps[0] == Equation(b, Minus, c, b - c)
  {
    var paren := b - c;
    var answer := a * paren;
    var e := [Num(a), Sym(Times), Open, Num(b), Sym(Minus), Num(c), Close];
    Type5Reads(a, b, c);
    Question(e, answer, [Equation(b, Minus, c, paren), Equation(a, Times, paren, answer)])
  }

  lemma Type5Reads(a: int, b: int, c: int)
    ensures Evaluate([Num(a), Sym(Times), Open, Num(b), Sym(Minus), Num(c), Close]) == Some(a * (b - c))
  {
    var e := [Num(a), Sym(Times), Open, Num(b), Sym(Minus), Num(c), Close];
    var paren := [Open, Num(b), Sym(Minus), Num(c), Close];
    assert e[1..] == [Sym(Times)] + paren;
    assert ParseFactor(e) == Some((a, e[1..]));
    assert e[1..][1..] == paren + [];
    FactorOfParen(b, Minus, c, []);
    assert ParseFactor(paren) == Some((b - c, []));
    assert TermTail(a, e[1..]) == TermTail(a * (b - c), []);
    assert ParseTerm(e) == Some((a * (b - c), []));
    assert ParseExpr(e) == Some((a * (b - c), []));
  }

  /**
   * Shape 6: `a ÷ b + c × d`, where a is built as b × quotient so the
   * division is exact.  The first step is a heading line with no numbers.
   */
  function GenType6(b: int, quotient: int, c: int, d: int): (q: Question)
    requires 2 <= b <= 8 && 2 <= quotient <= 10 && 2 <= c <= 7 && 2 <= d <= 7
    ensures Sound(q) && |q.steps| == 4 && q.steps[0] == Note([])
    ensures q.expression == [Num(b * quotient), Sym(Divide), Num(b), Sym(Plus), Num(c), Sym(Times), Num(d)]
    ensures q.answer == (b * quotient) / b + c * d && (b * quotient) % b == 0
    ensures q.answer == quotient + c * d >= 6
    ensures q.steps[1] == Equation(b * quotient, Divide, b, quotient)
  {
    var a := b * quotient;
    var product := c * d;
    var answer := quotient + product;
    var e := [Num(a), Sym(Divide), Num(b), Sym(Plus), Num(c), Sym(Times), Num(d)];
    DivUnique(a, b, quotient, 0);
    Type6Reads(a, b, c, d);
    Question(e, answer,
             [Note([]), Equation(a, Divide, b, quotient), Equation(c, Times, d, product),
              Equation(quotient, Plus, product, answer)])
  }

  lemma Type6Reads(a: int, b: int, c: int, d: int)
    requires b != 0 && a % b == 0
    ensures Evaluate([Num(a), Sym(Divide), Num(b), Sym(Plus), Num(c), Sym(Times), Num(d)]) == Some(a / b + c * d)
  {
    var e := [Num(a), Sym(Divide), Num(b), Sym(Plus), Num(c), Sym(Times), Num(d)];
    var second := [Num(c), Sym(Times), Num(d)];
    assert e == [Num(a), Sym(Divide), Num(b)] + ([Sym(Plus)] + second);
    TermOfProduct(a, Divide, b, [Sym(Plus)] + second);
    TermOfProduct(c, Times, d, []);
    assert second + [] == second;
    ExprOfTwoTerms(a / b, Plus, second, c * d);
  }

  /**
   * Every range a shape draws from is nonempty, whatever the earlier draws
   * were: type 2's c from [1, a·b − 1], type 3's d from [1, min(a + b·c − 1, 15)]
   * and type 5's b from [c + 2, 15], each over that shape's own earlier draws.
   */
  lemma DrawRangesNonempty(a2: int, b2: int, a3: int, b3: int, c3: int, c5: int)
    requires 2 <= a2 <= 9 && 2 <= b2 <= 9
    requires 2 <= b3 <= 8 && 2 <= c3 <= 8 && 1 <= a3 <= 15
    requires 1 <= c5 <= 8
    ensures 1 <= a2 * b2 - 1
    ensures 1 <= Min(a3 + b3 * c3 - 1, 15)
    ensures c5 + 2 <= 15
  {
    MulAtLeast(a2, b2);
    MulAtLeast(b3, c3);
  }

  /**
   * One slot of `generateQuestions`: which shape
   * `Math.floor(Math.random() * 6)` picked, and the values that shape drew,
   * in the order it draws them.
   */
  datatype Slot = Slot(kind: nat, draws: seq<int>)

  predicate ValidSlot(s: Slot)
  {
    var d := s.draws;
    match s.kind
    case 0 => |d| == 3 && 2 <= d[0] <= 9 && 2 <= d[1] <= 9 && 1 <= d[2] <= 20
    case 1 => |d| == 3 && 2 <= d[0] <= 9 && 2 <= d[1] <= 9 && 1 <= d[2] <= d[0] * d[1] - 1
    case 2 => |d| == 4 && 2 <= d[0] <= 8 && 2 <= d[1] <= 8 && 1 <= d[2] <= 15
                       && 1 <= d[3] <= Min(d[2] + d[0] * d[1] - 1, 15)
    case 3 => |d| == 3 && 2 <= d[0] <= 10 && 2 <= d[1] <= 10 && 2 <= d[2] <= 6
    case 4 => |d| == 3 && 1 <= d[0] <= 8 && d[0] + 2 <= d[1] <= 15 && 2 <= d[2] <= 7
    case 5 => |d| == 4 && 2 <= d[0] <= 8 && 2 <= d[1] <= 10 && 2 <= d[2] <= 7 && 2 <= d[3] <= 7
    case _ => false
  }

  /** `generateQuestion`: build the shape the slot picked. */
  function GenerateQuestion(s: Slot): (q: Question)
    requires ValidSlot(s)
    ensures Sound(q)
    ensures q.answer >= 1
  {
    var d := s.draws;
    if s.kind == 0 then GenType1(d[0], d[1], d[2])
    else if s.kind == 1 then GenType2(d[0], d[1], d[2])
    else if s.kind == 2 then GenType3(d[0], d[1], d[2], d[3])
    else if s.kind == 3 then GenType4(d[0], d[1], d[2])
    else if s.kind == 4 then GenType5(d[0], d[1], d[2])
    else GenType6(d[0], d[1], d[2], d[3])
  }

  /** `generateQuestions(count)`: one question per slot. */
  function GenerateQuestions(count: nat, slots: seq<Slot>): (qs: seq<Question>)
    requires |slots| == count
    requires forall i | 0 <= i < count :: ValidSlot(slots[i])
    ensures |qs| == count
    ensures forall i | 0 <= i < count :: Sound(qs[i]) && qs[i] == GenerateQuestion(slots[i])
  {
    seq(count, i requires 0 <= i < count => GenerateQuestion(slots[i]))
  }
}
