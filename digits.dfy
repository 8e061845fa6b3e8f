/**
 * Decimal digit sequences, least significant digit first.
 *
 * The source turns every operand into a string with `String(n)` and left-pads
 * it with zeros to a common width (`padStart(maxLen, "0")`).  Here a number's
 * digits are a `seq<nat>` whose element 0 is the units digit, so padding on
 * the left of the string becomes appending zeros at the end of the sequence.
 */
module DecimalDigits {

  /** 10 to the power k. */
  function Pow10(k: nat): (p: nat)
    ensures p >= 1
  {
    if k == 0 then 1 else 10 * Pow10(k - 1)
  }

  lemma {:induction false} Pow10Monotone(i: nat, j: nat)
    requires i <= j
    ensures Pow10(i) <= Pow10(j)
    decreases j
  {
    if i < j {
      Pow10Monotone(i, j - 1);
    }
  }

  /** Every element is a decimal digit. */
  predicate IsDigits(ds: seq<nat>)
  {
    forall i | 0 <= i < |ds| :: ds[i] < 10
  }

  /** The number a digit sequence (units first) stands for. */
  function Value(ds: seq<nat>): nat
  {
    if ds == [] then 0 else ds[0] + 10 * Value(ds[1..])
  }

  /** The digits `String(n)` writes, units first; zero is written "0". */
  function Digits(n: nat): (ds: seq<nat>)
    ensures 1 <= |ds| && IsDigits(ds)
    decreases n
  {
    if n < 10 then [n] else [n % 10] + Digits(n / 10)
  }

  /** `Digits(n)` stands for n, has no leading zero and fits in |Digits(n)| places. */
  lemma {:induction false} DigitsValue(n: nat)
    ensures var ds := Digits(n);
            && Value(ds) == n
            && n < Pow10(|ds|)
            && (|ds| == 1 || ds[|ds| - 1] != 0)
    decreases n
  {
    if n >= 10 {
      var q, r := n / 10, n % 10;
      DigitsValue(q);
      var ds, rest := Digits(n), Digits(q);
      assert ds == [r] + rest;
      assert ds[1..] == rest && ds[0] == r;
      assert |ds| == |rest| + 1 && ds[|ds| - 1] == rest[|rest| - 1];
      if q < 10 {
        assert rest == [q] && q != 0;
      } else {
        assert |rest| != 1;
      }
      assert n == 10 * q + r;
      assert Value(ds) == r + 10 * q;
      assert Pow10(|ds|) == 10 * Pow10(|rest|);
      assert q + 1 <= Pow10(|rest|);
    }
  }

  /** n zero digits. */
  function Zeros(n: nat): (z: seq<nat>)
    ensures |z| == n && forall i | 0 <= i < n :: z[i] == 0
  {
    seq(n, _ => 0)
  }

  /** `padStart(width, "0")`: zeros added on the most significant side. */
  function PadTo(ds: seq<nat>, width: nat): (r: seq<nat>)
    requires |ds| <= width
    ensures |r| == width && r[..|ds|] == ds
    ensures forall i | |ds| <= i < width :: r[i] == 0
    ensures IsDigits(ds) ==> IsDigits(r)
  {
    ds + Zeros(width - |ds|)
  }

  /** The digits of n padded to `width` columns. */
  function Padded(n: nat, width: nat): (ds: seq<nat>)
    requires |Digits(n)| <= width
    ensures |ds| == width && IsDigits(ds)
  {
    PadTo(Digits(n), width)
  }

  /** A number already `width` digits long is not padded. */
  lemma PaddedExact(n: nat)
    ensures Padded(n, |Digits(n)|) == Digits(n)
  {
    assert Digits(n) + Zeros(0) == Digits(n);
  }

  /** Padding further keeps the narrower padding as a prefix. */
  lemma PaddedPrefix(n: nat, narrow: nat, wide: nat)
    requires |Digits(n)| <= narrow <= wide
    ensures Padded(n, wide)[..narrow] == Padded(n, narrow)
  {
    var ds := Digits(n);
    assert Padded(n, wide)[..narrow] == ds + Zeros(narrow - |ds|);
  }

  lemma {:induction false} ValueAppend(xs: seq<nat>, ys: seq<nat>)
    ensures Value(xs + ys) == Value(xs) + Pow10(|xs|) * Value(ys)
    decreases |xs|
  {
    if xs != [] {
      var tail := xs[1..];
      assert (xs + ys)[1..] == tail + ys && (xs + ys)[0] == xs[0];
      ValueAppend(tail, ys);
      assert Value(xs + ys) == xs[0] + 10 * Value(tail + ys);
      assert Value(xs) == xs[0] + 10 * Value(tail);
      assert Pow10(|xs|) == 10 * Pow10(|tail|);
      ShiftStep(xs[0], Value(tail), Pow10(|tail|), Value(ys), Value(tail + ys));
    } else {
      assert xs + ys == ys;
    }
  }

  /** Shifting a row up one place and putting d below it, in numbers. */
  lemma ShiftStep(d: int, rest: int, p: int, high: int, joined: int)
    requires joined == rest + p * high
    ensures d + 10 * joined == (d + 10 * rest) + (10 * p) * high
  {
  }

  /** A prefix one longer is the shorter prefix and the next element. */
  lemma PrefixSnoc(ds: seq<nat>, j: nat)
    requires j < |ds|
    ensures ds[..j + 1] == ds[..j] + [ds[j]]
  {
  }

  /** Appending a most significant digit d to xs adds d · 10^|xs|. */
  lemma ValueSnoc(xs: seq<nat>, d: nat)
    ensures Value(xs + [d]) == Value(xs) + Pow10(|xs|) * d
  {
    ValueAppend(xs, [d]);
    assert [d][1..] == [];
    assert Value([d]) == d;
  }

  /** A digit row extended by a most significant digit d stays a digit row worth d · 10^|ds| more. */
  lemma DigitsSnoc(ds: seq<nat>, d: nat, total: int)
    requires IsDigits(ds) && d < 10 && Value(ds) + d * Pow10(|ds|) == total
    ensures IsDigits(ds + [d]) && Value(ds + [d]) == total
  {
    ValueSnoc(ds, d);
  }

  lemma {:induction false} ValueOfZeros(n: nat)
    ensures Value(Zeros(n)) == 0
  {
    if n > 0 {
      assert Zeros(n)[1..] == Zeros(n - 1);
      ValueOfZeros(n - 1);
    }
  }

  /** Leading zeros do not change the value. */
  lemma PadToValue(ds: seq<nat>, width: nat)
    requires |ds| <= width
    ensures Value(PadTo(ds, width)) == Value(ds)
  {
    var zeros := Zeros(width - |ds|);
    ValueAppend(ds, zeros);
    ValueOfZeros(width - |ds|);
    var p := Pow10(|ds|);
    assert Value(PadTo(ds, width)) == Value(ds) + p * Value(zeros);
    assert p * Value(zeros) == p * 0 == 0;
  }

  /** A number written with `width` digits is below 10^width. */
  lemma {:induction false} ValueBound(ds: seq<nat>)
    requires IsDigits(ds)
    ensures Value(ds) < Pow10(|ds|)
    decreases |ds|
  {
    if ds != [] {
      ValueBound(ds[1..]);
    }
  }

  lemma {:induction false} ValueZeroAllZero(ds: seq<nat>)
    requires Value(ds) == 0
    ensures forall i | 0 <= i < |ds| :: ds[i] == 0
    decreases |ds|
  {
    if ds != [] {
      ValueZeroAllZero(ds[1..]);
      assert forall i | 1 <= i < |ds| :: ds[i] == ds[1..][i - 1];
    }
  }

  /**
   * Decimal notation is unique: a nonempty digit sequence is the padded
   * `String` form of its own value.
   */
  lemma {:induction false} DigitsOfValue(ds: seq<nat>)
    requires IsDigits(ds) && |ds| >= 1
    ensures |Digits(Value(ds))| <= |ds|
    ensures ds == PadTo(Digits(Value(ds)), |ds|)
    decreases |ds|
  {
    var v := Value(ds);
    if |ds| == 1 {
      assert v == ds[0];
    } else {
      var rest := ds[1..];
      var w := Value(rest);
      if w == 0 {
        ValueZeroAllZero(rest);
        assert v == ds[0];
        assert Digits(v) == [ds[0]];
        var p := PadTo(Digits(v), |ds|);
        forall i | 0 <= i < |ds| ensures p[i] == ds[i] {
          if i > 0 {
            assert ds[i] == rest[i - 1];
          }
        }
      } else {
        DigitsOfValue(rest);
        assert v == ds[0] + 10 * w && v >= 10;
        assert v % 10 == ds[0] && v / 10 == w;
        assert Digits(v) == [ds[0]] + Digits(w);
        assert ds == [ds[0]] + rest;
      }
    }
  }

  /** Without a leading zero, the digit sequence is exactly `String(Value(ds))`. */
  lemma CanonicalDigits(ds: seq<nat>)
    requires IsDigits(ds) && |ds| >= 1
    requires |ds| == 1 || ds[|ds| - 1] != 0
    ensures Digits(Value(ds)) == ds
  {
    DigitsOfValue(ds);
  }

  lemma MulAtLeast(d: int, k: int)
    requires d > 0 && k >= 1
    ensures d * k >= d
  {
  }

  /** Quotient and remainder are unique. */
  lemma DivUnique(n: int, d: int, q: int, r: int)
    requires d > 0 && 0 <= r < d && n == d * q + r
    ensures n / d == q
  {
    var q', r' := n / d, n % d;
    assert n == d * q' + r' && 0 <= r' < d;
    if q' < q {
      MulAtLeast(d, q - q');
    } else if q' > q {
      MulAtLeast(d, q' - q);
    }
  }

  lemma DivDiv(n: nat, p: nat)
    requires p >= 1
    ensures n / (10 * p) == (n / 10) / p
  {
    var q := n / 10;
    var r := n % 10;
    var q2 := q / p;
    var r2 := q % p;
    assert q == p * q2 + r2;
    assert 10 * (p * q2) == (10 * p) * q2;
    assert n == (10 * p) * q2 + (10 * r2 + r);
    DivUnique(n, 10 * p, q2, 10 * r2 + r);
  }

  /**
   * Column k of the padded digits is the k-th least significant digit of n:
   * `n / 10^k % 10`, which is zero beyond the length of `String(n)`.
   */
  lemma {:induction false} DigitsAt(n: nat, k: nat)
    requires k < |Digits(n)|
    ensures Digits(n)[k] == n / Pow10(k) % 10
    decreases n
  {
    if k > 0 {
      var m := n / 10;
      assert Digits(n) == [n % 10] + Digits(m);
      DigitsAt(m, k - 1);
      var p := Pow10(k - 1);
      assert Pow10(k) == 10 * p;
      DivDiv(n, p);
    }
  }

  lemma PaddedDigitAt(n: nat, width: nat, k: nat)
    requires |Digits(n)| <= width && k < width
    ensures Padded(n, width)[k] == n / Pow10(k) % 10
  {
    var ds := Digits(n);
    if k >= |ds| {
      DigitsValue(n);
      Pow10Monotone(|ds|, k);
      DivUnique(n, Pow10(k), 0, n);
    } else {
      assert Padded(n, width)[..|ds|] == ds;
      DigitsAt(n, k);
    }
  }

  /** A larger number never has fewer digits. */
  lemma {:induction false} DigitsLengthMonotone(x: nat, y: nat)
    requires x <= y
    ensures |Digits(x)| <= |Digits(y)|
    decreases x
  {
    if x >= 10 {
      DigitsLengthMonotone(x / 10, y / 10);
    }
  }
}
