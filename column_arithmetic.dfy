/**
 * The written ("vertical") addition and subtraction that the hint screen
 * shows column by column: `getAdditionSteps`, `getSubtractionSteps` and the
 * carry row / borrow markers drawn above the digits.
 *
 * Column 0 is the units column.  The source walks the zero-padded strings
 * from string index `maxLen - 1` down to 0; string index i is column
 * `maxLen - 1 - i` here (the source's own `col`).
 */
module ColumnArithmetic {
  import opened DecimalDigits

  /** One column of the written calculation (labels and wording left out). */
  datatype ColumnStep = ColumnStep(digitA: nat, digitB: nat, carryIn: nat, result: nat, carryOut: nat)

  function Max(x: nat, y: nat): nat
  {
    if x < y then y else x
  }

  /** `maxLen`: the length of the longer of `String(a)` and `String(b)`. */
  function Width(a: nat, b: nat): (w: nat)
    ensures 1 <= w && |Digits(a)| <= w && |Digits(b)| <= w
    ensures w == |Digits(a)| || w == |Digits(b)|
  {
    Max(|Digits(a)|, |Digits(b)|)
  }

  /** Two zero-padded operands of the same width. */
  predicate Operands(da: seq<nat>, db: seq<nat>)
  {
    |da| == |db| && IsDigits(da) && IsDigits(db)
  }

  /** The carries (or borrows) chain: none into the units column, then each column's out is the next one's in. */
  predicate Chained(steps: seq<ColumnStep>)
  {
    && |steps| >= 1
    && steps[0].carryIn == 0
    && forall k | 0 < k < |steps| :: steps[k].carryIn == steps[k - 1].carryOut
  }

  /** An addition step writes the units digit of its column sum and carries the tens, 0 or 1. */
  predicate AddsColumn(s: ColumnStep)
  {
    && s.carryIn <= 1 && s.carryOut <= 1
    && s.result == (s.digitA + s.digitB + s.carryIn) % 10
    && s.carryOut == (s.digitA + s.digitB + s.carryIn) / 10
  }

  /**
   * A subtraction step borrows exactly when `digitA - carryIn < digitB` and
   * writes `digitA - carryIn + 10 * carryOut - digitB`, a digit.
   */
  predicate SubtractsColumn(s: ColumnStep)
  {
    && s.carryIn <= 1
    && (s.carryOut == 0 || s.carryOut == 1)
    && (s.carryOut == 1 <==> s.digitA - s.carryIn < s.digitB)
    && s.result == s.digitA - s.carryIn + 10 * s.carryOut - s.digitB
    && s.result <= 9
  }

  /** The digits written in the answer row, units first. */
  function Results(steps: seq<ColumnStep>): (ds: seq<nat>)
    ensures |ds| == |steps|
    ensures forall k | 0 <= k < |steps| :: ds[k] == steps[k].result
  {
    seq(|steps|, k requires 0 <= k < |steps| => steps[k].result)
  }

  // ---------------------------------------------------------------- addition

  /** The carry that column m receives from the columns below it. */
  function CarryInto(da: seq<nat>, db: seq<nat>, m: nat): (c: nat)
    requires Operands(da, db) && m <= |da|
    ensures c <= 1
  {
    if m == 0 then 0 else (da[m - 1] + db[m - 1] + CarryInto(da, db, m - 1)) / 10
  }

  function AddColumn(x: nat, y: nat, carry: nat): ColumnStep
  {
    var sum := x + y + carry;
    ColumnStep(x, y, carry, sum % 10, sum / 10)
  }

  /** The steps of the first m columns. */
  function AddColumns(da: seq<nat>, db: seq<nat>, m: nat): (steps: seq<ColumnStep>)
    requires Operands(da, db) && m <= |da|
    ensures |steps| == m
  {
    seq(m, k requires 0 <= k < m => AddColumn(da[k], db[k], CarryInto(da, db, k)))
  }

  /** The addition of two padded operands: one step per column, plus one for a carry left over. */
  function AddTrace(da: seq<nat>, db: seq<nat>): seq<ColumnStep>
    requires Operands(da, db)
  {
    var carry := CarryInto(da, db, |da|);
    AddColumns(da, db, |da|) + (if carry > 0 then [ColumnStep(0, 0, carry, carry, 0)] else [])
  }

  /** What `getAdditionSteps(a, b)` returns. */
  function AdditionSteps(a: nat, b: nat): seq<ColumnStep>
  {
    var w := Width(a, b);
    AddTrace(Padded(a, w), Padded(b, w))
  }

  lemma AddColumnsSnoc(da: seq<nat>, db: seq<nat>, m: nat)
    requires Operands(da, db) && m < |da|
    ensures AddColumns(da, db, m + 1)
            == AddColumns(da, db, m) + [AddColumn(da[m], db[m], CarryInto(da, db, m))]
  {
    assert AddColumns(da, db, m + 1)[..m] == AddColumns(da, db, m);
  }

  /**
   * The column loop of `getAdditionSteps` over the padded digit strings:
   * from the units column up, write `sum % 10`, carry `sum / 10`, and end
   * with one more step for a carry left over.
   */
  method AddPaddedColumns(aPad: seq<nat>, bPad: seq<nat>) returns (steps: seq<ColumnStep>)
    requires Operands(aPad, bPad)
    ensures steps == AddTrace(aPad, bPad)
  {
    var maxLen := |aPad|;
    steps := [];
    var carry := 0;
    for i := maxLen downto 0
      invariant carry == CarryInto(aPad, bPad, maxLen - i)
      invariant steps == AddColumns(aPad, bPad, maxLen - i)
    {
      var col := maxLen - 1 - i;
      var sum := aPad[col] + bPad[col] + carry;
      var result := sum % 10;
      var carryOut := sum / 10;
      AddColumnsSnoc(aPad, bPad, col);
      steps := steps + [ColumnStep(aPad[col], bPad[col], carry, result, carryOut)];
      carry := carryOut;
    }
    if carry > 0 {
      steps := steps + [ColumnStep(0, 0, carry, carry, 0)];
    }
  }

  /**
   * `getAdditionSteps(a, b)`: pad both operands to `maxLen` and run the
   * column loop.  Read from the last step back, the written digits are
   * exactly `String(a + b)`.
   */
  method GetAdditionSteps(a: nat, b: nat) returns (steps: seq<ColumnStep>)
    ensures steps == AdditionSteps(a, b)
    ensures Results(steps) == Digits(a + b)
  {
    var maxLen := Width(a, b);
    var aPad := Padded(a, maxLen);
    var bPad := Padded(b, maxLen);
    steps := AddPaddedColumns(aPad, bPad);
    AdditionResultsSpellSum(a, b);
  }

  /**
   * The answer row of the first m columns, followed by the carry out of them,
   * is the sum of the first m columns of the operands.
   */
  lemma {:induction false} AddColumnsValue(da: seq<nat>, db: seq<nat>, m: nat)
    requires Operands(da, db) && m <= |da|
    ensures Value(Results(AddColumns(da, db, m))) + CarryInto(da, db, m) * Pow10(m)
            == Value(da[..m]) + Value(db[..m])
  {
    if m == 0 {
      assert Results(AddColumns(da, db, 0)) == [];
      assert da[..0] == [] && db[..0] == [];
    } else {
      var j := m - 1;
      AddColumnsValue(da, db, j);
      var c := CarryInto(da, db, j);
      var sum := da[j] + db[j] + c;
      var p := Pow10(j);
      var cols, col := AddColumns(da, db, j), AddColumn(da[j], db[j], c);
      var before := Results(cols);
      var r := sum % 10;
      var after := Results(AddColumns(da, db, m));
      AddColumnsSnoc(da, db, j);
      assert AddColumns(da, db, m) == cols + [col];
      ResultsSnoc(cols, col);
      assert col.result == r;
      PrefixSnoc(da, j);
      PrefixSnoc(db, j);
      ValueSnoc(before, r);
      ValueSnoc(da[..j], da[j]);
      ValueSnoc(db[..j], db[j]);
      assert |before| == j && |da[..j]| == j && |db[..j]| == j;
      assert after == before + [r];
      var pv: int := p;
      assert Value(after) == Value(before) + pv * r;
      assert Value(da[..m]) == Value(da[..j]) + pv * da[j];
      assert Value(db[..m]) == Value(db[..j]) + pv * db[j];
      assert CarryInto(da, db, m) == sum / 10;
      assert Pow10(m) == 10 * p;
      AddValueStep(p, da[j], db[j], c, Value(before), Value(da[..j]), Value(db[..j]),
                   Value(after), CarryInto(da, db, m), Pow10(m), Value(da[..m]), Value(db[..m]));
    }
  }

  /** The running sum after one more column, with every quantity named. */
  lemma AddValueStep(p: nat, x: nat, y: nat, c: nat, vBefore: int, left: int, right: int,
                     vAll: int, cm: int, pm: int, leftAll: int, rightAll: int)
    requires vBefore + c * p == left + right
    requires pm == 10 * p && cm == (x + y + c) / 10
    requires vAll == vBefore + p * ((x + y + c) % 10)
    requires leftAll == left + p * x && rightAll == right + p * y
    ensures vAll + cm * pm == leftAll + rightAll
  {
    ColumnValueStep(p, x, y, c);
  }

  /** Writing `sum % 10` in a column worth p and carrying `sum / 10` keeps the total. */
  lemma ColumnValueStep(p: nat, x: nat, y: nat, c: nat)
    ensures var sum := x + y + c;
            p * (sum % 10) + (sum / 10) * (10 * p) == p * x + p * y + c * p
  {
    var sum := x + y + c;
    var r, q := sum % 10, sum / 10;
    assert sum == r + 10 * q;
    calc {
      p * r + q * (10 * p);
      p * r + p * (10 * q);
      p * (r + 10 * q);
      p * (x + y + c);
      p * x + p * y + c * p;
    }
  }

  /** An addition trace has a step per column, and one more exactly when the top column carries. */
  lemma AddTraceShape(da: seq<nat>, db: seq<nat>)
    requires Operands(da, db)
    ensures var steps := AddTrace(da, db);
            && (|steps| == |da| || |steps| == |da| + 1)
            && (|steps| == |da| + 1 <==> CarryInto(da, db, |da|) > 0)
            && (forall k | 0 <= k < |da| :: steps[k].digitA == da[k] && steps[k].digitB == db[k])
            && (forall k | |da| <= k < |steps| ::
                  steps[k].digitA == 0 && steps[k].digitB == 0 && steps[k].carryOut == 0)
  {
  }

  /** Step k of an addition trace receives the carry out of the columns below it. */
  lemma AddTraceCarries(da: seq<nat>, db: seq<nat>)
    requires Operands(da, db)
    ensures var steps := AddTrace(da, db);
            && (forall k | 0 <= k < |da| :: steps[k].carryIn == CarryInto(da, db, k))
            && (forall k | 0 <= k < |da| :: steps[k].carryOut == CarryInto(da, db, k + 1))
            && (|steps| > |da| ==> steps[|da|].carryIn == CarryInto(da, db, |da|))
  {
  }

  /** Every step of an addition trace adds its column correctly. */
  lemma AddTraceArithmetic(da: seq<nat>, db: seq<nat>)
    requires Operands(da, db)
    ensures var steps := AddTrace(da, db);
            forall k | 0 <= k < |steps| :: AddsColumn(steps[k])
  {
    var cols := AddColumns(da, db, |da|);
    forall k | 0 <= k < |cols|
      ensures AddsColumn(cols[k])
    {
      ColumnIsAdded(da[k], db[k], CarryInto(da, db, k));
    }
    if CarryInto(da, db, |da|) > 0 {
      var extra := ColumnStep(0, 0, 1, 1, 0);
      assert AddsColumn(extra);
      assert AddTrace(da, db) == cols + [extra];
    } else {
      assert AddTrace(da, db) == cols;
    }
  }

  lemma ColumnIsAdded(x: nat, y: nat, c: nat)
    requires x < 10 && y < 10 && c <= 1
    ensures AddsColumn(AddColumn(x, y, c))
  {
  }

  lemma ResultsSnoc(s: seq<ColumnStep>, x: ColumnStep)
    ensures Results(s + [x]) == Results(s) + [x.result]
  {
  }

  /** The carries chain from column to column, starting from none. */
  lemma AddTraceChain(da: seq<nat>, db: seq<nat>)
    requires Operands(da, db) && |da| >= 1
    ensures Chained(AddTrace(da, db))
  {
    AddTraceShape(da, db);
    AddTraceCarries(da, db);
  }

  /** The chaining and the per-column arithmetic of an addition trace together. */
  lemma AddTraceSteps(da: seq<nat>, db: seq<nat>)
    requires Operands(da, db) && |da| >= 1
    ensures var steps := AddTrace(da, db);
            Chained(steps) && forall k | 0 <= k < |steps| :: AddsColumn(steps[k])
  {
    AddTraceChain(da, db);
    AddTraceArithmetic(da, db);
  }

  /** The answer row of the padded columns is a digit row. */
  lemma AddColumnsDigits(da: seq<nat>, db: seq<nat>)
    requires Operands(da, db)
    ensures IsDigits(Results(AddColumns(da, db, |da|)))
  {
    var cols := AddColumns(da, db, |da|);
    forall k | 0 <= k < |cols|
      ensures Results(cols)[k] < 10
    {
      assert cols[k] == AddColumn(da[k], db[k], CarryInto(da, db, k));
    }
  }

  /** The answer row of an addition trace is a digit row holding the sum. */
  lemma AddTraceValue(da: seq<nat>, db: seq<nat>)
    requires Operands(da, db)
    ensures IsDigits(Results(AddTrace(da, db)))
    ensures Value(Results(AddTrace(da, db))) == Value(da) + Value(db)
  {
    var w := |da|;
    var cols := AddColumns(da, db, w);
    var carry := CarryInto(da, db, w);
    AddColumnsValue(da, db, w);
    AddColumnsDigits(da, db);
    assert da[..w] == da && db[..w] == db;
    CarryTerm(carry, Pow10(w));
    if carry > 0 {
      assert AddTrace(da, db) == cols + [ColumnStep(0, 0, 1, 1, 0)];
      FinalCarryColumn(cols, Value(da) + Value(db));
    } else {
      assert AddTrace(da, db) == cols;
    }
  }

  /** A carry of 0 or 1 times a place value is nothing or that place value. */
  lemma CarryTerm(c: nat, p: nat)
    requires c <= 1
    ensures c * p == if c == 0 then 0 else p
  {
  }

  /** Writing a final carry of 1 as an extra column adds 10^|cols| to the answer row. */
  lemma FinalCarryColumn(cols: seq<ColumnStep>, total: int)
    requires IsDigits(Results(cols)) && Value(Results(cols)) + 1 * Pow10(|cols|) == total
    ensures var full := Results(cols + [ColumnStep(0, 0, 1, 1, 0)]);
            IsDigits(full) && Value(full) == total
  {
    var rs := Results(cols);
    assert |rs| == |cols|;
    ResultsSnoc(cols, ColumnStep(0, 0, 1, 1, 0));
    DigitsSnoc(rs, 1, total);
  }

  /** The top column carries exactly when the sum does not fit in the operands' width. */
  lemma AddTraceOverflow(da: seq<nat>, db: seq<nat>)
    requires Operands(da, db)
    ensures CarryInto(da, db, |da|) > 0 <==> Value(da) + Value(db) >= Pow10(|da|)
  {
    var w := |da|;
    AddColumnsValue(da, db, w);
    AddColumnsDigits(da, db);
    assert da[..w] == da && db[..w] == db;
    var v := Value(Results(AddColumns(da, db, w)));
    var c := CarryInto(da, db, w);
    ValueBound(Results(AddColumns(da, db, w)));
    CarryOutOfWidth(v, c, Pow10(w), Value(da) + Value(db));
  }

  /** With a low part v below p, a total v + c * p (c a carry) reaches p exactly when c is 1. */
  lemma CarryOutOfWidth(v: nat, c: nat, p: nat, total: nat)
    requires c <= 1 && v < p && v + c * p == total
    ensures c > 0 <==> total >= p
  {
  }

  /** The answer row of a trace has no leading zero when the operands' top column has a nonzero digit. */
  lemma AddTraceTopDigit(da: seq<nat>, db: seq<nat>)
    requires Operands(da, db) && |da| >= 1
    requires |da| == 1 || da[|da| - 1] != 0 || db[|db| - 1] != 0
    ensures var rs := Results(AddTrace(da, db));
            |rs| == 1 || rs[|rs| - 1] != 0
  {
    var w := |da|;
    var steps := AddTrace(da, db);
    var c := CarryInto(da, db, w);
    if c > 0 {
      assert steps[w] == ColumnStep(0, 0, c, c, 0);
    } else if w > 1 {
      var top := AddColumn(da[w - 1], db[w - 1], CarryInto(da, db, w - 1));
      assert steps[w - 1] == top;
      NoCarryDigit(da[w - 1], db[w - 1], CarryInto(da, db, w - 1));
    }
  }

  /** A column sum that does not carry is its own written digit. */
  lemma NoCarryDigit(x: nat, y: nat, c: nat)
    requires (x + y + c) / 10 == 0
    ensures (x + y + c) % 10 == x + y + c
  {
  }

  /**
   * When either operand's top digit is not zero (or there is one column), the
   * answer row is exactly the decimal form of the sum.
   */
  lemma AddTraceCanonical(da: seq<nat>, db: seq<nat>)
    requires Operands(da, db) && |da| >= 1
    requires |da| == 1 || da[|da| - 1] != 0 || db[|db| - 1] != 0
    ensures Results(AddTrace(da, db)) == Digits(Value(da) + Value(db))
  {
    var rs := Results(AddTrace(da, db));
    AddTraceValue(da, db);
    AddTraceTopDigit(da, db);
    CanonicalDigits(rs);
    assert Digits(Value(rs)) == rs;
  }

  /** The operands padded to `Width(a, b)` stand for a and b. */
  lemma PaddedOperands(a: nat, b: nat)
    ensures var w := Width(a, b);
            && Operands(Padded(a, w), Padded(b, w))
            && Value(Padded(a, w)) == a && Value(Padded(b, w)) == b
  {
    var w := Width(a, b);
    PadToValue(Digits(a), w);
    PadToValue(Digits(b), w);
    DigitsValue(a);
    DigitsValue(b);
  }

  /** The longer operand's padded digits have a nonzero top digit, unless it is one digit long. */
  lemma PaddedTopDigit(a: nat, b: nat)
    ensures var w := Width(a, b);
            w == 1 || Padded(a, w)[w - 1] != 0 || Padded(b, w)[w - 1] != 0
  {
    var w := Width(a, b);
    if w == |Digits(a)| {
      PaddedExact(a);
      DigitsValue(a);
    } else {
      PaddedExact(b);
      DigitsValue(b);
    }
  }

  /**
   * The addition trace has `maxLen` steps, and one more exactly when the most
   * significant column carries, which is exactly when a + b needs another digit.
   */
  lemma AdditionStepsShape(a: nat, b: nat)
    ensures var w, steps := Width(a, b), AdditionSteps(a, b);
            && (|steps| == w || |steps| == w + 1)
            && (|steps| == w + 1 <==> steps[w - 1].carryOut > 0)
            && (|steps| == w + 1 <==> a + b >= Pow10(w))
  {
    var w := Width(a, b);
    var da, db := Padded(a, w), Padded(b, w);
    PaddedOperands(a, b);
    AddTraceShape(da, db);
    AddTraceCarries(da, db);
    AddTraceOverflow(da, db);
  }

  /**
   * Each addition step writes `(digitA + digitB + carryIn) % 10` and carries
   * `(digitA + digitB + carryIn) / 10`; carries are 0 or 1; the first column
   * receives no carry and every other column receives its neighbour's carry.
   */
  lemma AdditionStepArithmetic(a: nat, b: nat)
    ensures var steps := AdditionSteps(a, b);
            Chained(steps) && forall k | 0 <= k < |steps| :: AddsColumn(steps[k])
  {
    var w := Width(a, b);
    var da, db := Padded(a, w), Padded(b, w);
    assert AdditionSteps(a, b) == AddTrace(da, db);
    PaddedOperands(a, b);
    AddTraceSteps(da, db);
  }

  /** Step k adds the k-th least significant digits of a and b (zero beyond their length). */
  lemma AdditionStepDigits(a: nat, b: nat)
    ensures var steps := AdditionSteps(a, b);
            forall k | 0 <= k < |steps| ::
              steps[k].digitA == a / Pow10(k) % 10 && steps[k].digitB == b / Pow10(k) % 10
  {
    var w := Width(a, b);
    var da, db := Padded(a, w), Padded(b, w);
    var steps := AdditionSteps(a, b);
    PaddedOperands(a, b);
    AddTraceShape(da, db);
    forall k | 0 <= k < |steps|
      ensures steps[k].digitA == a / Pow10(k) % 10 && steps[k].digitB == b / Pow10(k) % 10
    {
      if k < w {
        PaddedDigitAt(a, w, k);
        PaddedDigitAt(b, w, k);
      } else {
        DigitsValue(a);
        DigitsValue(b);
        Pow10Monotone(|Digits(a)|, k);
        Pow10Monotone(|Digits(b)|, k);
        DivUnique(a, Pow10(k), 0, a);
        DivUnique(b, Pow10(k), 0, b);
      }
    }
  }

  /** Read from the last step to the first, the written digits are `String(a + b)`. */
  lemma AdditionResultsSpellSum(a: nat, b: nat)
    ensures Results(AdditionSteps(a, b)) == Digits(a + b)
  {
    var w := Width(a, b);
    PaddedOperands(a, b);
    PaddedTopDigit(a, b);
    AddTraceCanonical(Padded(a, w), Padded(b, w));
  }

  // ------------------------------------------------------------- subtraction

  /** The borrow that column m owes to the columns below it. */
  function BorrowInto(da: seq<nat>, db: seq<nat>, m: nat): (bw: nat)
    requires Operands(da, db) && m <= |da|
    ensures bw <= 1
  {
    if m == 0 then 0
    else if da[m - 1] - BorrowInto(da, db, m - 1) < db[m - 1] then 1
    else 0
  }

  function SubColumn(x: nat, y: nat, borrow: nat): ColumnStep
    requires y < 10 && borrow <= 1
  {
    var current := x - borrow;
    if current < y then ColumnStep(x, y, borrow, current + 10 - y, 1)
    else ColumnStep(x, y, borrow, current - y, 0)
  }

  /** The steps of the first m columns. */
  function SubColumns(da: seq<nat>, db: seq<nat>, m: nat): (steps: seq<ColumnStep>)
    requires Operands(da, db) && m <= |da|
    ensures |steps| == m
  {
    seq(m, k requires 0 <= k < m => SubColumn(da[k], db[k], BorrowInto(da, db, k)))
  }

  /** What `getSubtractionSteps(a, b)` returns: one step per column. */
  function SubtractionSteps(a: nat, b: nat): seq<ColumnStep>
  {
    var w := Width(a, b);
    SubColumns(Padded(a, w), Padded(b, w), w)
  }

  lemma SubColumnsSnoc(da: seq<nat>, db: seq<nat>, m: nat)
    requires Operands(da, db) && m < |da|
    ensures SubColumns(da, db, m + 1)
            == SubColumns(da, db, m) + [SubColumn(da[m], db[m], BorrowInto(da, db, m))]
  {
    assert SubColumns(da, db, m + 1)[..m] == SubColumns(da, db, m);
  }

  /**
   * The column loop of `getSubtractionSteps` over the padded digit strings:
   * from the units column up, take the pending borrow off the top digit and,
   * when that is smaller than the bottom digit, borrow ten from the next column.
   */
  method SubPaddedColumns(aPad: seq<nat>, bPad: seq<nat>) returns (steps: seq<ColumnStep>)
    requires Operands(aPad, bPad)
    ensures steps == SubColumns(aPad, bPad, |aPad|)
  {
    var maxLen := |aPad|;
    steps := [];
    var borrow := 0;
    for i := maxLen downto 0
      invariant borrow == BorrowInto(aPad, bPad, maxLen - i)
      invariant steps == SubColumns(aPad, bPad, maxLen - i)
    {
      var col := maxLen - 1 - i;
      var dA := aPad[col];
      var dB := bPad[col];
      var currentA := dA as int - borrow;
      var newBorrow := 0;
      var result: int;
      if currentA < dB {
        newBorrow := 1;
        currentA := currentA + 10;
        result := currentA - dB;
      } else {
        result := currentA - dB;
      }
      SubColumnsSnoc(aPad, bPad, col);
      steps := steps + [ColumnStep(dA, dB, borrow, result, newBorrow)];
      borrow := newBorrow;
    }
  }

  /**
   * `getSubtractionSteps(a, b)`: pad both operands to `maxLen` and run the
   * column loop.  For a >= b the written digits are `String(a - b)` padded
   * with zeros to `maxLen`.
   */
  method GetSubtractionSteps(a: nat, b: nat) returns (steps: seq<ColumnStep>)
    ensures steps == SubtractionSteps(a, b)
    ensures a >= b ==> |Digits(a - b)| <= |steps| && Results(steps) == PadTo(Digits(a - b), |steps|)
  {
    var maxLen := Width(a, b);
    var aPad := Padded(a, maxLen);
    var bPad := Padded(b, maxLen);
    steps := SubPaddedColumns(aPad, bPad);
    SubtractionResults(a, b);
  }

  /**
   * The answer row of the first m columns is their difference, plus 10^m
   * when the subtraction still owes a borrow.
   */
  lemma {:induction false} SubColumnsValue(da: seq<nat>, db: seq<nat>, m: nat)
    requires Operands(da, db) && m <= |da|
    ensures Value(Results(SubColumns(da, db, m)))
            == Value(da[..m]) - Value(db[..m]) + BorrowInto(da, db, m) * Pow10(m)
  {
    if m == 0 {
      assert Results(SubColumns(da, db, 0)) == [];
      assert da[..0] == [] && db[..0] == [];
    } else {
      var j := m - 1;
      SubColumnsValue(da, db, j);
      var bw := BorrowInto(da, db, j);
      var nb := BorrowInto(da, db, m);
      var r := da[j] as int - bw + 10 * nb - db[j];
      var p := Pow10(j);
      var before := Results(SubColumns(da, db, j));
      assert SubColumns(da, db, m)[j].result == r;
      assert Results(SubColumns(da, db, m)) == before + [r];
      assert da[..m] == da[..j] + [da[j]];
      assert db[..m] == db[..j] + [db[j]];
      ValueSnoc(before, r);
      ValueSnoc(da[..j], da[j]);
      ValueSnoc(db[..j], db[j]);
      SubValueStep(p, da[j], db[j], bw, nb, r, Value(before), Value(da[..j]), Value(db[..j]),
                   Value(Results(SubColumns(da, db, m))), Pow10(m), Value(da[..m]), Value(db[..m]));
    }
  }

  /** The running difference after one more column, with every quantity named. */
  lemma SubValueStep(p: nat, x: nat, y: nat, bw: nat, nb: nat, r: int, vBefore: int, left: int, right: int,
                     vAll: int, pm: int, leftAll: int, rightAll: int)
    requires vBefore == left - right + bw * p
    requires pm == 10 * p && r == x - bw + 10 * nb - y
    requires vAll == vBefore + p * r
    requires leftAll == left + p * x && rightAll == right + p * y
    ensures vAll == leftAll - rightAll + nb * pm
  {
    BorrowValueStep(p, x, y, bw, nb, r);
  }

  /** Writing r in a column worth p and owing nb to the next column keeps the difference. */
  lemma BorrowValueStep(p: nat, x: nat, y: nat, bw: nat, nb: nat, r: int)
    requires r == x - bw + 10 * nb - y
    ensures p * r == p * x - p * y - bw * p + nb * (10 * p)
  {
  }

  /** Every step of a subtraction trace subtracts its column correctly. */
  lemma SubTraceArithmetic(da: seq<nat>, db: seq<nat>)
    requires Operands(da, db)
    ensures var steps := SubColumns(da, db, |da|);
            forall k | 0 <= k < |da| ::
              && steps[k].digitA == da[k] && steps[k].digitB == db[k]
              && steps[k].carryIn == BorrowInto(da, db, k)
              && steps[k].carryOut == BorrowInto(da, db, k + 1)
              && SubtractsColumn(steps[k])
  {
    var steps := SubColumns(da, db, |da|);
    forall k | 0 <= k < |da|
      ensures && steps[k].digitA == da[k] && steps[k].digitB == db[k]
              && steps[k].carryIn == BorrowInto(da, db, k)
              && steps[k].carryOut == BorrowInto(da, db, k + 1)
              && SubtractsColumn(steps[k])
    {
      assert steps[k] == SubColumn(da[k], db[k], BorrowInto(da, db, k));
    }
  }

  /** The borrows chain from column to column, starting from none. */
  lemma SubTraceChain(da: seq<nat>, db: seq<nat>)
    requires Operands(da, db) && |da| >= 1
    ensures Chained(SubColumns(da, db, |da|))
  {
    SubTraceArithmetic(da, db);
  }

  /**
   * The top column still owes a borrow exactly when the top operand is the
   * smaller, and the answer row holds the difference, or the difference plus
   * 10^width when it is negative.
   */
  lemma SubTraceValue(da: seq<nat>, db: seq<nat>)
    requires Operands(da, db)
    ensures var rs, bw := Results(SubColumns(da, db, |da|)), BorrowInto(da, db, |da|);
            && IsDigits(rs)
            && (bw == 1 <==> Value(da) < Value(db))
            && Value(rs) == Value(da) - Value(db) + bw * Pow10(|da|)
  {
    var w := |da|;
    var rs := Results(SubColumns(da, db, w));
    SubColumnsValue(da, db, w);
    assert da[..w] == da && db[..w] == db;
    SubTraceArithmetic(da, db);
    ValueBound(rs);
    ValueBound(da);
    ValueBound(db);
    BorrowOutOfWidth(Value(rs), BorrowInto(da, db, w), Pow10(w), Value(da), Value(db));
  }

  lemma SubTraceTop(da: seq<nat>, db: seq<nat>)
    requires Operands(da, db) && |da| >= 1
    ensures SubColumns(da, db, |da|)[|da| - 1].carryOut == BorrowInto(da, db, |da|)
  {
  }

  /** Without a final borrow the answer row is the padded decimal form of the difference. */
  lemma SubTracePadded(da: seq<nat>, db: seq<nat>)
    requires Operands(da, db) && |da| >= 1 && Value(da) >= Value(db)
    ensures |Digits(Value(da) - Value(db))| <= |da|
    ensures Results(SubColumns(da, db, |da|)) == PadTo(Digits(Value(da) - Value(db)), |da|)
  {
    var rs := Results(SubColumns(da, db, |da|));
    SubTraceValue(da, db);
    assert Value(rs) == Value(da) - Value(db);
    DigitsOfValue(rs);
  }

  /**
   * With a low part v below p and operands below p, v == x - y + c * p (c a
   * borrow) has c == 1 exactly when x < y.
   */
  lemma BorrowOutOfWidth(v: nat, c: nat, p: nat, x: nat, y: nat)
    requires c <= 1 && v < p && x < p && y < p && v == x - y + c * p
    ensures c == 1 <==> x < y
  {
  }

  /**
   * The subtraction trace has exactly `maxLen` steps; a step borrows exactly
   * when `digitA - carryIn < digitB` and writes
   * `digitA - carryIn + 10 * carryOut - digitB`, a digit; borrows chain from
   * column to column, starting from none.
   */
  lemma SubtractionStepArithmetic(a: nat, b: nat)
    ensures var steps := SubtractionSteps(a, b);
            && |steps| == Width(a, b)
            && Chained(steps)
            && forall k | 0 <= k < |steps| :: SubtractsColumn(steps[k])
  {
    var w := Width(a, b);
    var da, db := Padded(a, w), Padded(b, w);
    assert SubtractionSteps(a, b) == SubColumns(da, db, w);
    PaddedOperands(a, b);
    SubTraceArithmetic(da, db);
    SubTraceChain(da, db);
  }

  /** Step k subtracts the k-th least significant digits of a and b. */
  lemma SubtractionStepDigits(a: nat, b: nat)
    ensures var steps := SubtractionSteps(a, b);
            forall k | 0 <= k < |steps| ::
              steps[k].digitA == a / Pow10(k) % 10 && steps[k].digitB == b / Pow10(k) % 10
  {
    var w := Width(a, b);
    var da, db := Padded(a, w), Padded(b, w);
    PaddedOperands(a, b);
    SubTraceArithmetic(da, db);
    forall k | 0 <= k < w
      ensures SubtractionSteps(a, b)[k].digitA == a / Pow10(k) % 10
      ensures SubtractionSteps(a, b)[k].digitB == b / Pow10(k) % 10
    {
      PaddedDigitAt(a, w, k);
      PaddedDigitAt(b, w, k);
    }
  }

  /**
   * The last step still borrows exactly when a < b, and the answer row holds
   * a - b, or a - b + 10^maxLen when a < b.  For a >= b, which every caller
   * supplies, the row is `String(a - b)` padded with zeros to `maxLen`.
   */
  lemma SubtractionResults(a: nat, b: nat)
    ensures var w, steps := Width(a, b), SubtractionSteps(a, b);
            && (steps[w - 1].carryOut == 1 <==> a < b)
            && Value(Results(steps)) == a - b + steps[w - 1].carryOut * Pow10(w)
            && (a >= b ==> |Digits(a - b)| <= w && Results(steps) == PadTo(Digits(a - b), w))
  {
    var w := Width(a, b);
    var da, db := Padded(a, w), Padded(b, w);
    var steps := SubtractionSteps(a, b);
    assert steps == SubColumns(da, db, w);
    PaddedOperands(a, b);
    assert |da| == w && Value(da) == a && Value(db) == b;
    var bw := BorrowInto(da, db, w);
    SubTraceTop(da, db);
    assert steps[w - 1].carryOut == bw;
    SubTraceValue(da, db);
    assert bw == 1 <==> a < b;
    assert Value(Results(steps)) == a - b + bw * Pow10(w);
    if a >= b {
      SubTracePadded(da, db);
    }
  }

  // ----------------------------------------------- carry row, borrow markers

  /** The display's `maxLen`: the longest of `String(a)`, `String(b)` and `String(answer)`. */
  function DisplayWidth(a: nat, b: nat, answer: nat): (w: nat)
    ensures w >= Width(a, b) && |Digits(answer)| <= w
    ensures w == Width(a, b) || w == |Digits(answer)|
  {
    Max(Width(a, b), |Digits(answer)|)
  }

  /** Position j of a row over padded operands shows the carry into column |da| - 1 - j. */
  predicate ShowsCarries(carries: seq<nat>, da: seq<nat>, db: seq<nat>)
  {
    && Operands(da, db)
    && |carries| == |da|
    && forall j | 0 <= j < |da| :: carries[j] == CarryInto(da, db, |da| - 1 - j)
  }

  /**
   * Entry j of the row is the carryOut of step |steps| - 2 - j, and the
   * leftmost entry is empty.
   */
  predicate FollowsCarryOuts(carries: seq<nat>, steps: seq<ColumnStep>)
  {
    && |carries| == |steps| >= 1
    && carries[|carries| - 1] == 0
    && forall j | 0 <= j < |carries| - 1 :: carries[j] == steps[|carries| - 2 - j].carryOut
  }

  /**
   * The carry-row loop over the display's padded digit strings: the carry
   * out of the column at string index i is drawn above index i - 1, and the
   * carry out of the leftmost column is not drawn.
   */
  method CarryRowPadded(aPad: seq<nat>, bPad: seq<nat>) returns (carries: seq<nat>)
    requires Operands(aPad, bPad)
    ensures ShowsCarries(carries, aPad, bPad)
  {
    var maxLen := |aPad|;
    var row := new nat[maxLen](_ => 0);
    var carry := 0;
    for i := maxLen downto 0
      invariant carry == CarryInto(aPad, bPad, maxLen - i)
      invariant forall j | 0 <= j < maxLen ::
                  row[j] == if j >= i - 1 then CarryInto(aPad, bPad, maxLen - 1 - j) else 0
    {
      var col := maxLen - 1 - i;
      var sum := aPad[col] + bPad[col] + carry;
      carry := sum / 10;
      if i > 0 && carry > 0 {
        row[i - 1] := carry;
      }
    }
    carries := row[..];
  }

  /**
   * The carry row of the hint screen for `a + b = answer`.  With the answer
   * a + b the row has one entry per step of `getAdditionSteps`, the leftmost
   * entry is empty, and every other string position j shows the carry that
   * the column to its right produced.
   */
  method CarryRow(a: nat, b: nat, answer: nat) returns (carries: seq<nat>)
    ensures var w := DisplayWidth(a, b, answer);
            ShowsCarries(carries, Padded(a, w), Padded(b, w))
    ensures answer == a + b ==> FollowsCarryOuts(carries, AdditionSteps(a, b))
  {
    var maxLen := DisplayWidth(a, b, answer);
    var aPad := Padded(a, maxLen);
    var bPad := Padded(b, maxLen);
    carries := CarryRowPadded(aPad, bPad);
    if answer == a + b {
      CarryRowMatchesSteps(a, b, answer, carries);
    }
  }

  /** Two paddings of the same operands agree on every carry the narrower one can see. */
  lemma {:induction false} CarryIntoExtend(da: seq<nat>, db: seq<nat>, ea: seq<nat>, eb: seq<nat>, m: nat)
    requires Operands(da, db) && Operands(ea, eb) && |da| <= |ea|
    requires ea[..|da|] == da && eb[..|db|] == db && m <= |da|
    ensures CarryInto(ea, eb, m) == CarryInto(da, db, m)
  {
    if m > 0 {
      CarryIntoExtend(da, db, ea, eb, m - 1);
      assert ea[m - 1] == da[m - 1] && eb[m - 1] == db[m - 1];
    }
  }

  /**
   * Over a padding as wide as the addition trace, the carry into column m is
   * the carry the trace's step m receives.
   */
  lemma CarriesMatchTrace(da: seq<nat>, db: seq<nat>, ea: seq<nat>, eb: seq<nat>)
    requires Operands(da, db) && Operands(ea, eb) && |ea| == |AddTrace(da, db)|
    requires ea[..|da|] == da && eb[..|db|] == db
    ensures forall m | 0 <= m < |ea| :: CarryInto(ea, eb, m) == AddTrace(da, db)[m].carryIn
  {
    AddTraceShape(da, db);
    AddTraceCarries(da, db);
    forall m | 0 <= m < |ea|
      ensures CarryInto(ea, eb, m) == AddTrace(da, db)[m].carryIn
    {
      CarryIntoExtend(da, db, ea, eb, m);
    }
  }

  /** With the answer a + b on screen, the display is exactly as wide as the addition trace. */
  lemma AdditionStepsFillDisplay(a: nat, b: nat)
    ensures |AdditionSteps(a, b)| == DisplayWidth(a, b, a + b)
  {
    var steps := AdditionSteps(a, b);
    AdditionResultsSpellSum(a, b);
    AdditionStepsShape(a, b);
    assert |Digits(a + b)| == |Results(steps)| == |steps|;
  }

  /** With the answer a + b, the row over the display padding follows the addition trace. */
  lemma CarryRowMatchesSteps(a: nat, b: nat, answer: nat, carries: seq<nat>)
    requires answer == a + b
    requires var w := DisplayWidth(a, b, answer);
             ShowsCarries(carries, Padded(a, w), Padded(b, w))
    ensures FollowsCarryOuts(carries, AdditionSteps(a, b))
  {
    var w3 := DisplayWidth(a, b, answer);
    DisplayCarries(a, b);
    AdditionStepArithmetic(a, b);
    CarriesFollowChain(carries, AdditionSteps(a, b), Padded(a, w3), Padded(b, w3));
  }

  /** With the answer a + b, the carries over the display padding are those the addition trace receives. */
  lemma DisplayCarries(a: nat, b: nat)
    ensures var w3 := DisplayWidth(a, b, a + b);
            var ea, eb := Padded(a, w3), Padded(b, w3);
            && |AdditionSteps(a, b)| == w3 && Operands(ea, eb)
            && forall m | 0 <= m < w3 :: CarryInto(ea, eb, m) == AdditionSteps(a, b)[m].carryIn
  {
    var w := Width(a, b);
    var w3 := DisplayWidth(a, b, a + b);
    var da, db := Padded(a, w), Padded(b, w);
    var ea, eb := Padded(a, w3), Padded(b, w3);
    assert AdditionSteps(a, b) == AddTrace(da, db);
    AdditionStepsFillDisplay(a, b);
    PaddedOperands(a, b);
    PaddedPrefix(a, w, w3);
    PaddedPrefix(b, w, w3);
    CarriesMatchTrace(da, db, ea, eb);
  }

  /** A row showing each column's incoming carry shows, shifted by one, each step's carryOut. */
  lemma CarriesFollowChain(carries: seq<nat>, steps: seq<ColumnStep>, ea: seq<nat>, eb: seq<nat>)
    requires ShowsCarries(carries, ea, eb) && Chained(steps) && |steps| == |ea|
    requires forall m | 0 <= m < |ea| :: CarryInto(ea, eb, m) == steps[m].carryIn
    ensures FollowsCarryOuts(carries, steps)
  {
    var w := |ea|;
    forall j | 0 <= j < w - 1
      ensures carries[j] == steps[w - 2 - j].carryOut
    {
      assert carries[j] == CarryInto(ea, eb, w - 1 - j) == steps[w - 1 - j].carryIn;
    }
    assert carries[w - 1] == CarryInto(ea, eb, 0) == 0;
  }

  /** Position j of a row over padded operands is marked when column |da| - 1 - j borrows. */
  predicate ShowsBorrows(borrows: seq<bool>, da: seq<nat>, db: seq<nat>)
  {
    && Operands(da, db)
    && |borrows| == |da|
    && forall j | 0 <= j < |da| :: borrows[j] == (BorrowInto(da, db, |da| - 1 - j) == 1)
  }

  /**
   * Entry j of the row is marked exactly when step |steps| - 2 - j borrowed,
   * and the leftmost entry is never marked.
   */
  predicate FollowsBorrows(borrows: seq<bool>, steps: seq<ColumnStep>)
  {
    && |borrows| == |steps| >= 1
    && !borrows[|borrows| - 1]
    && forall j | 0 <= j < |borrows| - 1 :: borrows[j] == (steps[|borrows| - 2 - j].carryOut == 1)
  }

  /**
   * The borrow-marker loop over the display's padded digit strings: string
   * index i - 1 is marked when the column at index i borrows from it.
   */
  method BorrowMarkersPadded(aPad: seq<nat>, bPad: seq<nat>) returns (borrows: seq<bool>)
    requires Operands(aPad, bPad)
    ensures ShowsBorrows(borrows, aPad, bPad)
  {
    var maxLen := |aPad|;
    var marks := new bool[maxLen](_ => false);
    var borrow := 0;
    for i := maxLen downto 0
      invariant borrow == BorrowInto(aPad, bPad, maxLen - i)
      invariant forall j | 0 <= j < maxLen ::
                  marks[j] == (j >= i - 1 && BorrowInto(aPad, bPad, maxLen - 1 - j) == 1)
    {
      var col := maxLen - 1 - i;
      var dA := aPad[col] as int - borrow;
      var dB := bPad[col];
      if dA < dB {
        borrow := 1;
        if i > 0 {
          marks[i - 1] := true;
        }
      } else {
        borrow := 0;
      }
    }
    borrows := marks[..];
  }

  /**
   * The borrow markers of the hint screen for `a - b = answer`: string
   * position j is marked exactly when the column on its right borrowed from
   * it.  With a >= b and the answer a - b the markers follow
   * `getSubtractionSteps`, and the leftmost position is never marked.
   */
  method BorrowMarkers(a: nat, b: nat, answer: nat) returns (borrows: seq<bool>)
    ensures var w := DisplayWidth(a, b, answer);
            ShowsBorrows(borrows, Padded(a, w), Padded(b, w))
    ensures b <= a && answer == a - b ==> FollowsBorrows(borrows, SubtractionSteps(a, b))
  {
    var maxLen := DisplayWidth(a, b, answer);
    var aPad := Padded(a, maxLen);
    var bPad := Padded(b, maxLen);
    borrows := BorrowMarkersPadded(aPad, bPad);
    if b <= a && answer == a - b {
      BorrowMarkersMatchSteps(a, b, answer, borrows);
    }
  }

  /** With a >= b and the answer a - b, the row over the display padding follows the subtraction trace. */
  lemma BorrowMarkersMatchSteps(a: nat, b: nat, answer: nat, borrows: seq<bool>)
    requires b <= a && answer == a - b
    requires var w := DisplayWidth(a, b, answer);
             ShowsBorrows(borrows, Padded(a, w), Padded(b, w))
    ensures FollowsBorrows(borrows, SubtractionSteps(a, b))
  {
    var w := Width(a, b);
    DigitsLengthMonotone(a - b, a);
    assert DisplayWidth(a, b, a - b) == w;
    var da, db := Padded(a, w), Padded(b, w);
    PaddedOperands(a, b);
    SubTraceArithmetic(da, db);
  }
}
