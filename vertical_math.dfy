/**
 * The vertical-math topic's question generator (generateVerticalMath.ts):
 * the cheap carry and borrow detectors, the hint lines, and the eight
 * rejection-sampling generators, one per kind of question.
 *
 * As in ColumnArithmetic, padded operands are digit rows with the units
 * column first; the source's string index i is column `maxLen - 1 - i`.
 */
module VerticalMath {
  import opened DecimalDigits
  import opened ColumnArithmetic
  import opened Common

  // ------------------------------------------------------------- detectors

  /** Some aligned column's own two digits add up to ten or more. */
  predicate RawCarry(da: seq<nat>, db: seq<nat>)
    requires |da| == |db|
  {
    exists k | 0 <= k < |da| :: da[k] + db[k] >= 10
  }

  /** Some aligned column's top digit is smaller than its bottom digit. */
  predicate RawBorrow(da: seq<nat>, db: seq<nat>)
    requires |da| == |db|
  {
    exists k | 0 <= k < |da| :: da[k] < db[k]
  }

  /** Some step of a written calculation carries (addition) or borrows (subtraction). */
  predicate Regroups(steps: seq<ColumnStep>)
  {
    exists k | 0 <= k < |steps| :: steps[k].carryOut > 0
  }

  /** What `checkCarryAdd(a, b)` decides. */
  predicate HasCarry(a: nat, b: nat)
  {
    var w := Width(a, b);
    RawCarry(Padded(a, w), Padded(b, w))
  }

  /** What `checkBorrow(a, b)` decides. */
  predicate HasBorrow(a: nat, b: nat)
  {
    var w := Width(a, b);
    RawBorrow(Padded(a, w), Padded(b, w))
  }

  /**
   * The loop of `checkCarryAdd` over the padded rows.  Its `carry` is reset
   * to zero after every column, so each column is judged by its own digits.
   */
  method CheckCarryPadded(aPad: seq<nat>, bPad: seq<nat>) returns (r: bool)
    requires |aPad| == |bPad|
    ensures r == RawCarry(aPad, bPad)
  {
    var maxLen := |aPad|;
    var carry := 0;
    for i := maxLen downto 0
      invariant carry == 0
      invariant forall k | 0 <= k < maxLen - i :: aPad[k] + bPad[k] < 10
    {
      var col := maxLen - 1 - i;
      var sum := aPad[col] + bPad[col] + carry;
      if sum >= 10 {
        return true;
      }
      carry := 0;
    }
    return false;
  }

  /** The loop of `checkBorrow` over the padded rows. */
  method CheckBorrowPadded(aPad: seq<nat>, bPad: seq<nat>) returns (r: bool)
    requires |aPad| == |bPad|
    ensures r == RawBorrow(aPad, bPad)
  {
    var maxLen := |aPad|;
    for i := maxLen downto 0
      invariant forall k | 0 <= k < maxLen - i :: aPad[k] >= bPad[k]
    {
      var col := maxLen - 1 - i;
      if aPad[col] < bPad[col] {
        return true;
      }
    }
    return false;
  }

  /**
   * `checkCarryAdd(a, b)`: it looks at each column's own digits only, yet it
   * answers exactly whether the written addition of `getAdditionSteps` carries.
   */
  method CheckCarryAdd(a: nat, b: nat) returns (r: bool)
    ensures r == HasCarry(a, b)
    ensures r == Regroups(AdditionSteps(a, b))
  {
    var maxLen := Width(a, b);
    var aPad := Padded(a, maxLen);
    var bPad := Padded(b, maxLen);
    r := CheckCarryPadded(aPad, bPad);
    CarryDetectorAgrees(a, b);
  }

  /**
   * `checkBorrow(a, b)`: it compares each column's own digits only, yet it
   * answers exactly whether the written subtraction of `getSubtractionSteps` borrows.
   */
  method CheckBorrow(a: nat, b: nat) returns (r: bool)
    ensures r == HasBorrow(a, b)
    ensures r == Regroups(SubtractionSteps(a, b))
  {
    var maxLen := Width(a, b);
    var aPad := Padded(a, maxLen);
    var bPad := Padded(b, maxLen);
    r := CheckBorrowPadded(aPad, bPad);
    BorrowDetectorAgrees(a, b);
  }

  /** A carry into column m comes from some column below m whose own digits reach ten. */
  lemma {:induction false} CarryHasRawSource(da: seq<nat>, db: seq<nat>, m: nat)
    requires Operands(da, db) && m <= |da| && CarryInto(da, db, m) > 0
    ensures exists j | 0 <= j < m :: da[j] + db[j] >= 10
    decreases m
  {
    if CarryInto(da, db, m - 1) == 0 {
      assert da[m - 1] + db[m - 1] >= 10;
    } else {
      CarryHasRawSource(da, db, m - 1);
    }
  }

  /** A borrow owed into column m comes from some column below m whose top digit is smaller. */
  lemma {:induction false} BorrowHasRawSource(da: seq<nat>, db: seq<nat>, m: nat)
    requires Operands(da, db) && m <= |da| && BorrowInto(da, db, m) == 1
    ensures exists j | 0 <= j < m :: da[j] < db[j]
    decreases m
  {
    if BorrowInto(da, db, m - 1) == 0 {
      assert da[m - 1] < db[m - 1];
    } else {
      BorrowHasRawSource(da, db, m - 1);
    }
  }

  /** Over any padded rows, the raw-digit carry test agrees with the full addition trace. */
  lemma RawCarryIffTraceCarries(da: seq<nat>, db: seq<nat>)
    requires Operands(da, db)
    ensures RawCarry(da, db) <==> Regroups(AddTrace(da, db))
  {
    var steps := AddTrace(da, db);
    AddTraceShape(da, db);
    AddTraceCarries(da, db);
    if RawCarry(da, db) {
      var k :| 0 <= k < |da| && da[k] + db[k] >= 10;
      assert CarryInto(da, db, k + 1) == (da[k] + db[k] + CarryInto(da, db, k)) / 10 >= 1;
      assert steps[k].carryOut > 0;
    }
    if Regroups(steps) {
      var k :| 0 <= k < |steps| && steps[k].carryOut > 0;
      assert k < |da|;
      CarryHasRawSource(da, db, k + 1);
    }
  }

  /** Over any padded rows, the raw-digit borrow test agrees with the full subtraction trace. */
  lemma RawBorrowIffTraceBorrows(da: seq<nat>, db: seq<nat>)
    requires Operands(da, db)
    ensures RawBorrow(da, db) <==> Regroups(SubColumns(da, db, |da|))
  {
    var steps := SubColumns(da, db, |da|);
    SubTraceArithmetic(da, db);
    if RawBorrow(da, db) {
      var k :| 0 <= k < |da| && da[k] < db[k];
      if BorrowInto(da, db, k) == 1 {
        assert steps[k - 1].carryOut > 0;
      } else {
        assert steps[k].carryOut > 0;
      }
    }
    if Regroups(steps) {
      var k :| 0 <= k < |steps| && steps[k].carryOut > 0;
      BorrowHasRawSource(da, db, k + 1);
    }
  }

  /** `checkCarryAdd(a, b)` is true exactly when some step of `getAdditionSteps(a, b)` carries. */
  lemma CarryDetectorAgrees(a: nat, b: nat)
    ensures HasCarry(a, b) <==> Regroups(AdditionSteps(a, b))
  {
    var w := Width(a, b);
    PaddedOperands(a, b);
    RawCarryIffTraceCarries(Padded(a, w), Padded(b, w));
  }

  /** `checkBorrow(a, b)` is true exactly when some step of `getSubtractionSteps(a, b)` borrows. */
  lemma BorrowDetectorAgrees(a: nat, b: nat)
    ensures HasBorrow(a, b) <==> Regroups(SubtractionSteps(a, b))
  {
    var w := Width(a, b);
    PaddedOperands(a, b);
    RawBorrowIffTraceBorrows(Padded(a, w), Padded(b, w));
  }

  // ------------------------------------------------------------------ hints

  /** The lines of a vertical-math hint, wording left out. */
  datatype VerticalHintLine =
    | Ask(a: int, op: Op, b: int)                    // "a op b = ?"
    | Alert                                          // "note: there is a carry / a borrow!"
    | UnitsCarry(x: int, y: int, sum: int, write: int) // "units: x + y = sum, write `write`, carry 1"
    | UnitsBorrow(x: int, y: int)                    // "units: x < y, take 1 from the tens"
    | UnitsAfterBorrow(x: int, y: int, diff: int)    // "x - y = diff", x already raised by ten
    | Answer(a: int, op: Op, b: int, answer: int)    // "the answer: a op b = answer"

  /** The lines `buildAddHint` produces. */
  function AddHint(a: nat, b: nat, answer: int, hasCarry: bool): seq<VerticalHintLine>
  {
    var x, y := a % 10, b % 10;
    if !hasCarry then [Ask(a, Plus, b), Answer(a, Plus, b, answer)]
    else if x + y >= 10 then [Ask(a, Plus, b), Alert, UnitsCarry(x, y, x + y, (x + y) % 10), Answer(a, Plus, b, answer)]
    else [Ask(a, Plus, b), Alert, Answer(a, Plus, b, answer)]
  }

  /** The lines `buildSubHint` produces. */
  function SubHint(a: nat, b: nat, answer: int, hasBorrow: bool): seq<VerticalHintLine>
  {
    var x, y := a % 10, b % 10;
    if !hasBorrow then [Ask(a, Minus, b), Answer(a, Minus, b, answer)]
    else if x < y then
      [Ask(a, Minus, b), Alert, UnitsBorrow(x, y), UnitsAfterBorrow(x + 10, y, x + 10 - y), Answer(a, Minus, b, answer)]
    else [Ask(a, Minus, b), Alert, Answer(a, Minus, b, answer)]
  }

  /** `buildAddHint`: the question line, the carry lines when there is a carry, the answer line. */
  method BuildAddHint(a: nat, b: nat, answer: int, hasCarry: bool) returns (lines: seq<VerticalHintLine>)
    ensures lines == AddHint(a, b, answer, hasCarry)
  {
    lines := [Ask(a, Plus, b)];
    if hasCarry {
      lines := lines + [Alert];
      var aOnes, bOnes := a % 10, b % 10;
      var onesSum := aOnes + bOnes;
      if onesSum >= 10 {
        lines := lines + [UnitsCarry(aOnes, bOnes, onesSum, onesSum % 10)];
      }
    }
    lines := lines + [Answer(a, Plus, b, answer)];
  }

  /** `buildSubHint`: the question line, the borrow lines when there is a borrow, the answer line. */
  method BuildSubHint(a: nat, b: nat, answer: int, hasBorrow: bool) returns (lines: seq<VerticalHintLine>)
    ensures lines == SubHint(a, b, answer, hasBorrow)
  {
    lines := [Ask(a, Minus, b)];
    if hasBorrow {
      lines := lines + [Alert];
      var aOnes, bOnes := a % 10, b % 10;
      if aOnes < bOnes {
        lines := lines + [UnitsBorrow(aOnes, bOnes)];
        lines := lines + [UnitsAfterBorrow(aOnes + 10, bOnes, aOnes + 10 - bOnes)];
      }
    }
    lines := lines + [Answer(a, Minus, b, answer)];
  }

  /**
   * An addition hint asks `a + b = ?` first and gives the answer last; it has
   * two lines without a carry.  With a carry, the units line appears exactly
   * when the units column of the written addition carries, and then it
   * writes the units digit of a + b and carries 1.
   */
  lemma AddVerticalHintLines(a: nat, b: nat, hasCarry: bool)
    ensures var h := AddHint(a, b, a + b, hasCarry);
            && 2 <= |h| <= 4
            && h[0] == Ask(a, Plus, b) && h[|h| - 1] == Answer(a, Plus, b, a + b)
            && (|h| == 2 <==> !hasCarry)
            && |AdditionSteps(a, b)| >= 1
            && (|h| == 4 <==> hasCarry && AdditionSteps(a, b)[0].carryOut > 0)
            && (|h| == 4 ==> h[2].UnitsCarry? && h[2].sum == h[2].x + h[2].y
                             && h[2].write == (a + b) % 10 && h[2].sum / 10 == 1)
  {
    UnitsColumnOfAddition(a, b);
    UnitsDigitOfSum(a, b);
  }

  /** The units digits' sum, taken mod 10, is the units digit of the sum; it carries 1 exactly when it reaches 10. */
  lemma UnitsDigitOfSum(a: nat, b: nat)
    ensures (a % 10 + b % 10) % 10 == (a + b) % 10
    ensures (a % 10 + b % 10) / 10 == if a % 10 + b % 10 >= 10 then 1 else 0
  {
    var x, y := a % 10, b % 10;
    assert a + b == 10 * (a / 10 + b / 10) + (x + y);
  }

  /** After borrowing ten, the units difference is the units digit of a - b. */
  lemma UnitsDigitOfDifference(a: nat, b: nat)
    requires b <= a && a % 10 < b % 10
    ensures a % 10 + 10 - b % 10 == (a - b) % 10
  {
    var x, y := a % 10, b % 10;
    assert a - b == 10 * (a / 10 - b / 10 - 1) + (x + 10 - y);
    assert a / 10 - b / 10 - 1 >= 0;
  }

  /**
   * A subtraction hint asks `a - b = ?` first and gives the answer last; it
   * has two lines without a borrow.  With a borrow, the units lines appear
   * exactly when the units column of the written subtraction borrows, and
   * then the units difference after borrowing is the units digit of a - b.
   */
  lemma SubVerticalHintLines(a: nat, b: nat, hasBorrow: bool)
    requires b <= a
    ensures var h := SubHint(a, b, a - b, hasBorrow);
            && 2 <= |h| <= 5
            && h[0] == Ask(a, Minus, b) && h[|h| - 1] == Answer(a, Minus, b, a - b)
            && (|h| == 2 <==> !hasBorrow)
            && |SubtractionSteps(a, b)| >= 1
            && (|h| == 5 <==> hasBorrow && SubtractionSteps(a, b)[0].carryOut == 1)
            && (|h| == 5 ==> h[3].UnitsAfterBorrow? && h[3].diff == h[3].x - h[3].y
                             && h[3].diff == (a - b) % 10 && 1 <= h[3].diff <= 9)
  {
    UnitsColumnOfSubtraction(a, b);
    if a % 10 < b % 10 {
      UnitsDigitOfDifference(a, b);
    }
  }

  /** The units step of the written addition adds `a % 10` and `b % 10` with no carry in. */
  lemma UnitsColumnOfAddition(a: nat, b: nat)
    ensures var s := AdditionSteps(a, b);
            && |s| >= 1
            && (s[0].carryOut > 0 <==> a % 10 + b % 10 >= 10)
  {
    var s := AdditionSteps(a, b);
    AdditionStepArithmetic(a, b);
    AdditionStepDigits(a, b);
    assert Pow10(0) == 1 && a / 1 == a && b / 1 == b;
    assert s[0].digitA == a % 10 && s[0].digitB == b % 10;
    assert s[0].carryIn == 0 && AddsColumn(s[0]);
  }

  /** The units step of the written subtraction borrows exactly when `a % 10 < b % 10`. */
  lemma UnitsColumnOfSubtraction(a: nat, b: nat)
    ensures var s := SubtractionSteps(a, b);
            && |s| >= 1
            && (s[0].carryOut == 1 <==> a % 10 < b % 10)
  {
    var s := SubtractionSteps(a, b);
    SubtractionStepArithmetic(a, b);
    SubtractionStepDigits(a, b);
    assert Pow10(0) == 1 && a / 1 == a && b / 1 == b;
    assert s[0].digitA == a % 10 && s[0].digitB == b % 10;
    assert s[0].carryIn == 0 && SubtractsColumn(s[0]);
  }

  // ------------------------------------------------------------- generators

  datatype Mode = Horizontal | Vertical

  /** The eight generators, in the order of the `generators` table. */
  datatype Variant =
    | VerticalAddNoCarry | VerticalAddWithCarry
    | VerticalSubNoBorrow | VerticalSubWithBorrow
    | HorizontalAddNoCarry | HorizontalAddWithCarry
    | HorizontalSubNoBorrow | HorizontalSubWithBorrow

  datatype Question = Question(a: nat, b: nat, op: Op, answer: int, mode: Mode, hasCarry: bool, hint: seq<VerticalHintLine>)

  function ModeOf(v: Variant): Mode
  {
    match v
    case VerticalAddNoCarry | VerticalAddWithCarry | VerticalSubNoBorrow | VerticalSubWithBorrow => Vertical
    case _ => Horizontal
  }

  function OpOf(v: Variant): Op
  {
    match v
    case VerticalAddNoCarry | VerticalAddWithCarry | HorizontalAddNoCarry | HorizontalAddWithCarry => Plus
    case _ => Minus
  }

  /** Whether the generator asks for a carry (addition) or a borrow (subtraction). */
  function WantsRegroup(v: Variant): bool
  {
    match v
    case VerticalAddWithCarry | VerticalSubWithBorrow | HorizontalAddWithCarry | HorizontalSubWithBorrow => true
    case _ => false
  }

  /** The range of the first draw, `a`. */
  function ARange(v: Variant): (r: (nat, nat))
    ensures r.0 <= r.1
  {
    match v
    case VerticalAddNoCarry | VerticalAddWithCarry => (100, 899)
    case VerticalSubNoBorrow | VerticalSubWithBorrow => (200, 999)
    case HorizontalAddNoCarry | HorizontalAddWithCarry => (10, 89)
    case HorizontalSubNoBorrow | HorizontalSubWithBorrow => (20, 99)
  }

  /** The range of the second draw, `b`, which for subtraction depends on a. */
  function BRange(v: Variant, a: nat): (r: (int, int))
    requires ARange(v).0 <= a <= ARange(v).1
    ensures 0 <= r.0 <= r.1
  {
    match v
    case VerticalAddNoCarry | VerticalAddWithCarry => (100, 899)
    case VerticalSubNoBorrow => (100, a - 100)
    case VerticalSubWithBorrow => (100, a - 10)
    case HorizontalAddNoCarry | HorizontalAddWithCarry => (10, 89)
    case HorizontalSubNoBorrow | HorizontalSubWithBorrow => (10, a - 5)
  }

  /** The largest sum an addition generator keeps. */
  function SumCap(v: Variant): nat
  {
    match v
    case VerticalAddNoCarry => 999
    case VerticalAddWithCarry => 9999
    case _ => 99
  }

  /** The two values `Math.random()` returns in one pass of the `do … while` loop. */
  datatype Draw = Draw(u: real, w: real)

  predicate ValidDraw(d: Draw)
  {
    0.0 <= d.u < 1.0 && 0.0 <= d.w < 1.0
  }

  /** Every draw of a stream is a pair of values `Math.random()` can return. */
  predicate ValidDraws(draws: seq<Draw>)
  {
    forall i | 0 <= i < |draws| :: ValidDraw(draws[i])
  }

  function PickA(v: Variant, d: Draw): nat
    requires ValidDraw(d)
  {
    RandInt(ARange(v).0, ARange(v).1, d.u)
  }

  function PickB(v: Variant, d: Draw): nat
    requires ValidDraw(d)
  {
    var r := BRange(v, PickA(v, d));
    RandInt(r.0, r.1, d.w)
  }

  /** The loop's exit condition: the pair regroups as wanted and, for addition, the sum fits. */
  predicate Accepts(v: Variant, a: nat, b: nat)
  {
    if OpOf(v) == Plus then HasCarry(a, b) == WantsRegroup(v) && a + b <= SumCap(v)
    else HasBorrow(a, b) == WantsRegroup(v)
  }

  predicate AcceptsDraw(v: Variant, d: Draw)
    requires ValidDraw(d)
  {
    Accepts(v, PickA(v, d), PickB(v, d))
  }

  /** The question a generator returns for its accepted pair. */
  function Build(v: Variant, a: nat, b: nat): Question
  {
    var hasCarry := WantsRegroup(v);
    if OpOf(v) == Plus then
      Question(a, b, Plus, a + b, ModeOf(v), hasCarry, AddHint(a, b, a + b, hasCarry))
    else
      Question(a, b, Minus, a - b, ModeOf(v), hasCarry, SubHint(a, b, a - b, hasCarry))
  }

  /** The question built from the first accepted draw of the stream, if there is one. */
  function FirstAccepted(v: Variant, draws: seq<Draw>): Option<Question>
    requires ValidDraws(draws)
  {
    if draws == [] then None
    else if AcceptsDraw(v, draws[0]) then Some(Build(v, PickA(v, draws[0]), PickB(v, draws[0])))
    else FirstAccepted(v, draws[1..])
  }

  /** One pass of the loop body and its `while` condition. */
  method Attempt(v: Variant, d: Draw) returns (a: nat, b: nat, rejected: bool)
    requires ValidDraw(d)
    ensures a == PickA(v, d) && b == PickB(v, d)
    ensures rejected == !Accepts(v, a, b)
  {
    var ar := ARange(v);
    a := RandInt(ar.0, ar.1, d.u);
    var br := BRange(v, a);
    b := RandInt(br.0, br.1, d.w);
    if OpOf(v) == Plus {
      var carry := CheckCarryAdd(a, b);
      rejected := carry != WantsRegroup(v) || a + b > SumCap(v);
    } else {
      var borrow := CheckBorrow(a, b);
      rejected := borrow != WantsRegroup(v);
    }
  }

  /**
   * The eight `genVertical*` / `genHorizontal*` generators: draw a and b
   * until the pair is accepted, then build the question and its hint.  The
   * draws come from a finite stream that holds an accepted pair.
   */
  method Generate(v: Variant, draws: seq<Draw>) returns (q: Question)
    requires ValidDraws(draws)
    requires FirstAccepted(v, draws).Some?
    ensures Some(q) == FirstAccepted(v, draws)
  {
    var i := 0;
    var a, b, rejected := Attempt(v, draws[0]);
    while rejected
      invariant 0 <= i < |draws|
      invariant a == PickA(v, draws[i]) && b == PickB(v, draws[i])
      invariant rejected == !AcceptsDraw(v, draws[i])
      invariant FirstAccepted(v, draws) == FirstAccepted(v, draws[i..])
      decreases |draws| - i
    {
      assert draws[i..][1..] == draws[i + 1..];
      i := i + 1;
      a, b, rejected := Attempt(v, draws[i]);
    }
    assert FirstAccepted(v, draws[i..]) == Some(Build(v, a, b));
    q := Assemble(v, a, b);
  }

  /** The generator's `return`: the answer, the flag and the hint for the accepted pair. */
  method Assemble(v: Variant, a: nat, b: nat) returns (q: Question)
    ensures q == Build(v, a, b)
  {
    var hint;
    if OpOf(v) == Plus {
      hint := BuildAddHint(a, b, a + b, WantsRegroup(v));
      q := Question(a, b, Plus, a + b, ModeOf(v), WantsRegroup(v), hint);
    } else {
      hint := BuildSubHint(a, b, a - b, WantsRegroup(v));
      q := Question(a, b, Minus, a - b, ModeOf(v), WantsRegroup(v), hint);
    }
  }

  /** The first accepted draw is accepted, in range, and every draw before it was rejected. */
  lemma {:induction false} FirstAcceptedIsFirst(v: Variant, draws: seq<Draw>)
    requires ValidDraws(draws)
    requires FirstAccepted(v, draws).Some?
    ensures exists i | 0 <= i < |draws| ::
              && AcceptsDraw(v, draws[i])
              && (forall j | 0 <= j < i :: !AcceptsDraw(v, draws[j]))
              && FirstAccepted(v, draws) == Some(Build(v, PickA(v, draws[i]), PickB(v, draws[i])))
  {
    if !AcceptsDraw(v, draws[0]) {
      var rest := draws[1..];
      FirstAcceptedIsFirst(v, rest);
      var i :| 0 <= i < |rest|
               && AcceptsDraw(v, rest[i])
               && (forall j | 0 <= j < i :: !AcceptsDraw(v, rest[j]))
               && FirstAccepted(v, rest) == Some(Build(v, PickA(v, rest[i]), PickB(v, rest[i])));
      RejectedBefore(v, draws, i + 1);
      assert draws[i + 1] == rest[i];
    }
  }

  /** Prepending a rejected draw to a run of rejected draws keeps the run rejected. */
  lemma RejectedBefore(v: Variant, draws: seq<Draw>, n: nat)
    requires ValidDraws(draws)
    requires 0 < n <= |draws| && !AcceptsDraw(v, draws[0])
    requires forall j | 0 <= j < n - 1 :: !AcceptsDraw(v, draws[1..][j])
    ensures forall j | 0 <= j < n :: !AcceptsDraw(v, draws[j])
  {
    forall j | 0 < j < n
      ensures !AcceptsDraw(v, draws[j])
    {
      assert draws[j] == draws[1..][j - 1];
    }
  }

  /** A stream that holds an accepted draw makes the loop stop. */
  lemma {:induction false} AcceptedDrawStops(v: Variant, draws: seq<Draw>, i: nat)
    requires ValidDraws(draws)
    requires i < |draws| && AcceptsDraw(v, draws[i])
    ensures FirstAccepted(v, draws).Some?
    decreases i
  {
    if i > 0 && !AcceptsDraw(v, draws[0]) {
      assert draws[1..][i - 1] == draws[i];
      AcceptedDrawStops(v, draws[1..], i - 1);
    }
  }

  /** An operand pair each generator accepts. */
  function WitnessPair(v: Variant): (nat, nat)
  {
    match v
    case VerticalAddNoCarry => (100, 100)
    case VerticalAddWithCarry => (105, 105)
    case VerticalSubNoBorrow => (200, 100)
    case VerticalSubWithBorrow => (201, 109)
    case HorizontalAddNoCarry => (10, 10)
    case HorizontalAddWithCarry => (15, 15)
    case HorizontalSubNoBorrow => (20, 10)
    case HorizontalSubWithBorrow => (21, 16)
  }

  /** The digit rows of the witness operands. */
  lemma WitnessRows()
    ensures Digits(100) == [0, 0, 1] && Digits(105) == [5, 0, 1] && Digits(109) == [9, 0, 1]
    ensures Digits(200) == [0, 0, 2] && Digits(201) == [1, 0, 2]
    ensures Digits(10) == [0, 1] && Digits(15) == [5, 1] && Digits(16) == [6, 1]
    ensures Digits(20) == [0, 2] && Digits(21) == [1, 2]
  {
    assert Digits(10) == [0] + Digits(1);
    assert Digits(100) == [0] + Digits(10);
    assert Digits(105) == [5] + Digits(10);
    assert Digits(109) == [9] + Digits(10);
    assert Digits(15) == [5] + Digits(1);
    assert Digits(16) == [6] + Digits(1);
    assert Digits(20) == [0] + Digits(2);
    assert Digits(21) == [1] + Digits(2);
    assert Digits(200) == [0] + Digits(20);
    assert Digits(201) == [1] + Digits(20);
  }

  /** Each generator accepts its witness pair, which lies in the generator's ranges. */
  lemma WitnessAccepted(v: Variant)
    ensures var (a, b) := WitnessPair(v);
            && ARange(v).0 <= a <= ARange(v).1
            && BRange(v, a).0 <= b <= BRange(v, a).1
            && Accepts(v, a, b)
  {
    WitnessRows();
    var (a, b) := WitnessPair(v);
    PaddedExact(a);
    PaddedExact(b);
    var w := Width(a, b);
    var da, db := Padded(a, w), Padded(b, w);
    assert da == Digits(a) && db == Digits(b);
    if WantsRegroup(v) {
      // the units column regroups
      assert OpOf(v) == Plus ==> da[0] + db[0] >= 10;
      assert OpOf(v) == Minus ==> da[0] < db[0];
    }
  }

  /** Every generator's loop has a draw that ends it. */
  lemma AcceptingDrawExists(v: Variant)
    ensures exists d: Draw :: ValidDraw(d) && AcceptsDraw(v, d)
  {
    var (a, b) := WitnessPair(v);
    WitnessAccepted(v);
    RandIntCovers(ARange(v).0, ARange(v).1, a);
    var u :| 0.0 <= u < 1.0 && RandInt(ARange(v).0, ARange(v).1, u) == a;
    RandIntCovers(BRange(v, a).0, BRange(v, a).1, b);
    var w :| 0.0 <= w < 1.0 && RandInt(BRange(v, a).0, BRange(v, a).1, w) == b;
    var d := Draw(u, w);
    assert PickA(v, d) == a && PickB(v, d) == b;
    assert ValidDraw(d) && AcceptsDraw(v, d);
  }

  /** Both draws lie in their ranges. */
  lemma DrawInRange(v: Variant, d: Draw)
    requires ValidDraw(d)
    ensures ARange(v).0 <= PickA(v, d) <= ARange(v).1
    ensures BRange(v, PickA(v, d)).0 <= PickB(v, d) <= BRange(v, PickA(v, d)).1
  {
  }

  /**
   * What every generated question satisfies: the operands lie in the
   * generator's ranges; the answer is a + b or a - b; subtraction keeps
   * b <= a - 100, a - 10 or a - 5; sums stay within the generator's cap;
   * `hasCarry` is the detector's verdict and says whether the written
   * calculation regroups; the hint opens with the question and closes with
   * the answer, with two lines exactly when nothing regroups.
   */
  lemma AcceptedQuestion(v: Variant, a: nat, b: nat)
    requires ARange(v).0 <= a <= ARange(v).1
    requires BRange(v, a).0 <= b <= BRange(v, a).1
    requires Accepts(v, a, b)
    ensures var q := Build(v, a, b);
            && q.a == a && q.b == b && q.op == OpOf(v) && q.mode == ModeOf(v)
            && (q.op == Plus ==> q.answer == a + b && q.answer <= SumCap(v))
            && (q.op == Minus ==> q.answer == a - b && b <= a)
            && (v == VerticalSubNoBorrow ==> q.answer >= 100)
            && (v == VerticalSubWithBorrow ==> q.answer >= 10)
            && (v == HorizontalSubNoBorrow || v == HorizontalSubWithBorrow ==> q.answer >= 5)
            && (q.op == Plus ==> q.hasCarry == HasCarry(a, b) == Regroups(AdditionSteps(a, b)))
            && (q.op == Minus ==> q.hasCarry == HasBorrow(a, b) == Regroups(SubtractionSteps(a, b)))
            && |q.hint| >= 2
            && q.hint[0] == Ask(a, q.op, b)
            && q.hint[|q.hint| - 1] == Answer(a, q.op, b, q.answer)
            && (|q.hint| == 2 <==> !q.hasCarry)
  {
    var q := Build(v, a, b);
    var regroup := WantsRegroup(v);
    if OpOf(v) == Plus {
      assert q == Question(a, b, Plus, a + b, ModeOf(v), regroup, AddHint(a, b, a + b, regroup));
      CarryDetectorAgrees(a, b);
      AddVerticalHintLines(a, b, regroup);
    } else {
      assert b <= a;
      assert q == Question(a, b, Minus, a - b, ModeOf(v), regroup, SubHint(a, b, a - b, regroup));
      BorrowDetectorAgrees(a, b);
      SubVerticalHintLines(a, b, regroup);
    }
  }

  /** Every question `Generate` returns satisfies `AcceptedQuestion` for its own operands. */
  lemma GeneratedQuestion(v: Variant, draws: seq<Draw>)
    requires ValidDraws(draws)
    requires FirstAccepted(v, draws).Some?
    ensures var q := FirstAccepted(v, draws).value;
            && q == Build(v, q.a, q.b)
            && ARange(v).0 <= q.a <= ARange(v).1
            && BRange(v, q.a).0 <= q.b <= BRange(v, q.a).1
            && Accepts(v, q.a, q.b)
  {
    FirstAcceptedIsFirst(v, draws);
    var i :| 0 <= i < |draws| && AcceptsDraw(v, draws[i])
             && FirstAccepted(v, draws) == Some(Build(v, PickA(v, draws[i]), PickB(v, draws[i])));
    DrawInRange(v, draws[i]);
  }

  /** `generators[Math.floor(Math.random() * 8)]`. */
  function VariantAt(u: real): Variant
    requires 0.0 <= u < 1.0
  {
    match RandInt(0, 7, u)
    case 0 => VerticalAddNoCarry
    case 1 => VerticalAddWithCarry
    case 2 => VerticalSubNoBorrow
    case 3 => VerticalSubWithBorrow
    case 4 => HorizontalAddNoCarry
    case 5 => HorizontalAddWithCarry
    case 6 => HorizontalSubNoBorrow
    case _ => HorizontalSubWithBorrow
  }

  /** `pick` is a value of `Math.random()` and `draws` a stream its generator accepts a draw of. */
  predicate Generable(pick: real, draws: seq<Draw>)
  {
    0.0 <= pick < 1.0 && ValidDraws(draws) && FirstAccepted(VariantAt(pick), draws).Some?
  }

  /** `q` is the question the generator picked by `pick` returns on `draws`. */
  predicate GeneratedBy(q: Question, pick: real, draws: seq<Draw>)
  {
    0.0 <= pick < 1.0 && ValidDraws(draws) && Some(q) == FirstAccepted(VariantAt(pick), draws)
  }

  /**
   * `generateQuestions(count)`: question i comes from the generator picked
   * by `picks[i]`, drawing from `streams[i]`.
   */
  method GenerateQuestions(count: nat, picks: seq<real>, streams: seq<seq<Draw>>) returns (qs: seq<Question>)
    requires |picks| == count && |streams| == count
    requires forall i | 0 <= i < count :: Generable(picks[i], streams[i])
    ensures |qs| == count
    ensures forall i | 0 <= i < count :: GeneratedBy(qs[i], picks[i], streams[i])
  {
    qs := [];
    for i := 0 to count
      invariant |qs| == i
      invariant forall k | 0 <= k < i :: GeneratedBy(qs[k], picks[k], streams[k])
    {
      var q := Generate(VariantAt(picks[i]), streams[i]);
      assert GeneratedBy(q, picks[i], streams[i]);
      qs := qs + [q];
    }
  }
}
