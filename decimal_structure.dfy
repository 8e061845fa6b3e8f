/**
 * The place-value topic (generateDecimal.ts): four-digit numbers split into
 * thousands, hundreds, tens and ones, and four kinds of question about them.
 *
 * Place names are kept as their place values (1000, 100, 10, 1); prompts,
 * labels and hint wording are left out, hint lines keep their numbers.
 */
module DecimalStructure {
  import opened Common
  import opened DecimalDigits

  /** The four places of a number, as `decompose` returns them. */
  datatype Places = Places(thousands: int, hundreds: int, tens: int, ones: int)

  /** `decompose(n)`: the floor divisions and remainders by 1000, 100 and 10. */
  function Decompose(n: nat): (p: Places)
    ensures 0 <= p.hundreds <= 9 && 0 <= p.tens <= 9 && 0 <= p.ones <= 9
    ensures 1000 <= n <= 9999 <==> 1 <= p.thousands <= 9
  {
    Places(n / 1000, (n % 1000) / 100, (n % 100) / 10, n % 10)
  }

  /** The number a set of places stands for. */
  function Compose(p: Places): int
  {
    1000 * p.thousands + 100 * p.hundreds + 10 * p.tens + p.ones
  }

  /** The places `decompose` returns stand for the number itself. */
  lemma DecomposeCompose(n: nat)
    ensures Compose(Decompose(n)) == n
  {
    var th, r1 := n / 1000, n % 1000;
    var h, r2 := r1 / 100, r1 % 100;
    var t, o := r2 / 10, r2 % 10;
    DivMod(n, 100, 10 * th + h, r2);
    DivMod(n, 10, 100 * th + 10 * h + t, o);
  }

  /** Composing places of a four-digit number and decomposing again gives them back. */
  lemma ComposeDecompose(p: Places)
    requires 1 <= p.thousands <= 9
    requires 0 <= p.hundreds <= 9 && 0 <= p.tens <= 9 && 0 <= p.ones <= 9
    ensures 1000 <= Compose(p) <= 9999
    ensures Decompose(Compose(p)) == p
  {
    var n := Compose(p);
    var low2 := 10 * p.tens + p.ones;
    var low := 100 * p.hundreds + low2;
    DivMod(n, 1000, p.thousands, low);
    DivMod(n, 100, 10 * p.thousands + p.hundreds, low2);
    DivMod(n, 10, 100 * p.thousands + 10 * p.hundreds + p.tens, p.ones);
    DivMod(low, 100, p.hundreds, low2);
    DivMod(low2, 10, p.tens, p.ones);
  }

  /** The place value of place k, counting from the thousands: 1000, 100, 10, 1. */
  function PlaceValue(k: nat): int
    requires k < 4
  {
    [1000, 100, 10, 1][k]
  }

  /** The digit of place k of `Decompose(n)`. */
  function PlaceDigit(p: Places, k: nat): int
    requires k < 4
  {
    [p.thousands, p.hundreds, p.tens, p.ones][k]
  }

  datatype Kind = DecomposeKind | ComposeKind | DigitValueKind | CompareKind

  /**
   * A question.  Every kind carries the number and its places; `options`
   * holds the two values to choose from in a comparison and is empty
   * otherwise.
   */
  datatype Question = Question(kind: Kind, number: nat, places: Places, answer: int,
                               options: seq<int>, hint: seq<HintLine>)

  /** What every question satisfies: a four-digit number shown with its own places. */
  predicate Consistent(q: Question)
  {
    1000 <= q.number <= 9999 && q.places == Decompose(q.number)
  }

  /** `genDecompose`: n drawn from [1000, 9999], the place asked about from [0, 3]. */
  function GenDecompose(n: nat, idx: nat): (q: Question)
    requires 1000 <= n <= 9999 && idx <= 3
    ensures Consistent(q) && q.kind == DecomposeKind && q.number == n
    ensures q.answer == n / PlaceValue(idx) % 10
    ensures 0 <= q.answer <= 9
  {
    var d := Decompose(n);
    var answer := PlaceDigit(d, idx);
    DigitOfPlace(n, idx);
    Question(DecomposeKind, n, d, answer, [],
             [Note([n, d.thousands, d.hundreds, d.tens, d.ones]), Note([answer])])
  }

  /** The digit `decompose` puts in place k is n / placeValue % 10. */
  lemma DigitOfPlace(n: nat, k: nat)
    requires n <= 9999 && k < 4
    ensures PlaceDigit(Decompose(n), k) == n / PlaceValue(k) % 10
  {
    var p := Decompose(n);
    if k == 0 {
      assert PlaceDigit(p, 0) == n / 1000 && PlaceValue(0) == 1000;
      assert n / 1000 < 10;
    } else if k == 1 {
      HundredsDigit(n);
      assert PlaceDigit(p, 1) == (n % 1000) / 100 && PlaceValue(1) == 100;
    } else if k == 2 {
      TensDigit(n);
      assert PlaceDigit(p, 2) == (n % 100) / 10 && PlaceValue(2) == 10;
    } else {
      assert PlaceDigit(p, 3) == n % 10 && PlaceValue(3) == 1 && n / 1 == n;
    }
  }

  /** The hundreds digit read off the remainder below a thousand. */
  lemma HundredsDigit(n: nat)
    ensures (n % 1000) / 100 == n / 100 % 10
  {
    var q, r := n / 100, n % 100;
    var q2, r2 := q / 10, q % 10;
    DivMod(n, 1000, q2, 100 * r2 + r);
    DivMod(100 * r2 + r, 100, r2, r);
  }

  /** The tens digit read off the remainder below a hundred. */
  lemma TensDigit(n: nat)
    ensures (n % 100) / 10 == n / 10 % 10
  {
    var q, r := n / 10, n % 10;
    var q2, r2 := q / 10, q % 10;
    DivMod(n, 100, q2, 10 * r2 + r);
    DivMod(10 * r2 + r, 10, r2, r);
  }

  /** Quotient and remainder are unique. */
  lemma DivMod(n: int, d: int, q: int, r: int)
    requires d > 0 && 0 <= r < d && n == d * q + r
    ensures n / d == q && n % d == r
  {
    DivUnique(n, d, q, r);
  }

  /** `genCompose`: the four places drawn, thousands from [1, 9] and the rest from [0, 9]. */
  function GenCompose(th: int, h: int, t: int, o: int): (q: Question)
    requires 1 <= th <= 9 && 0 <= h <= 9 && 0 <= t <= 9 && 0 <= o <= 9
    ensures Consistent(q) && q.kind == ComposeKind
    ensures q.places == Places(th, h, t, o) && q.answer == q.number
    ensures |q.hint| == 5
    ensures forall k | 0 <= k < 4 ::
              && q.hint[k].Equation? && TrueLine(q.hint[k])
              && q.hint[k].x == PlaceDigit(q.places, k) && q.hint[k].y == PlaceValue(k)
    ensures q.hint[4] == Note([q.hint[0].z, q.hint[1].z, q.hint[2].z, q.hint[3].z, q.answer])
    ensures q.hint[0].z + q.hint[1].z + q.hint[2].z + q.hint[3].z == q.answer
  {
    var p := Places(th, h, t, o);
    var n := th * 1000 + h * 100 + t * 10 + o;
    ComposeDecompose(p);
    Question(ComposeKind, n, p, n, [],
             [Equation(th, Times, 1000, th * 1000), Equation(h, Times, 100, h * 100),
              Equation(t, Times, 10, t * 10), Equation(o, Times, 1, o),
              Note([th * 1000, h * 100, t * 10, o, n])])
  }

  /** One place of a number: its digit, the digit's value and the place value. */
  datatype Place = Place(digit: int, value: int, placeValue: int)

  /** The places of `decompose(n)` from the thousands down. */
  function PlacesOf(n: nat): (ps: seq<Place>)
    ensures |ps| == 4
    ensures forall k | 0 <= k < 4 :: ps[k].placeValue == PlaceValue(k) && ps[k].digit == PlaceDigit(Decompose(n), k)
    ensures forall k | 0 <= k < 4 :: ps[k].value == ps[k].digit * ps[k].placeValue
  {
    var d := Decompose(n);
    [Place(d.thousands, d.thousands * 1000, 1000), Place(d.hundreds, d.hundreds * 100, 100),
     Place(d.tens, d.tens * 10, 10), Place(d.ones, d.ones, 1)]
  }

  /** `filter((x) => x.digit > 0)`. */
  function NonZero(ps: seq<Place>): (r: seq<Place>)
    ensures |r| <= |ps|
    ensures forall x | x in r :: x in ps && x.digit > 0
    ensures forall x | x in ps && x.digit > 0 :: x in r
  {
    if ps == [] then []
    else (if ps[0].digit > 0 then [ps[0]] else []) + NonZero(ps[1..])
  }

  /** A four-digit number always has a nonzero place: its thousands. */
  lemma NonZeroNeverEmpty(n: nat)
    requires 1000 <= n <= 9999
    ensures |NonZero(PlacesOf(n))| >= 1
  {
    var ps := PlacesOf(n);
    assert ps[0] in ps && ps[0].digit > 0;
  }

  /**
   * `genDigitValue`: n drawn from [1000, 9999] and u standing for the
   * `Math.random()` behind the choice among the nonzero places.  The
   * fallback to the thousands place when there is no nonzero digit never
   * fires, because a four-digit number has a nonzero thousands digit.
   */
  function GenDigitValue(n: nat, u: real): (q: Question)
    requires 1000 <= n <= 9999 && 0.0 <= u < 1.0
    ensures Consistent(q) && q.kind == DigitValueKind && q.number == n
    ensures |q.hint| == 2 && q.hint[1].Equation? && TrueLine(q.hint[1])
    ensures var line := q.hint[1];
            && line.y in {1000, 100, 10, 1}
            && line.x == n / line.y % 10 > 0
            && q.answer == line.x * line.y
  {
    var ps := PlacesOf(n);
    var nonZero := NonZero(ps);
    var first := ps[0];
    NonZeroNeverEmpty(n);
    var chosen := if |nonZero| > 0 then nonZero[RandInt(0, |nonZero| - 1, u)] else first;
    assert chosen in ps;
    var k :| 0 <= k < 4 && ps[k] == chosen;
    DigitOfPlace(n, k);
    Question(DigitValueKind, n, Decompose(n), chosen.value, [],
             [Note([chosen.digit]), Equation(chosen.digit, Times, chosen.placeValue, chosen.value)])
  }

  function Max(x: int, y: int): int
  {
    if x >= y then x else y
  }

  /** The question `genCompare` builds once it has a b different from a. */
  function CompareQuestion(a: nat, b: nat): (q: Question)
    requires 1000 <= a <= 9999 && 1000 <= b <= 9999 && a != b
    ensures Consistent(q) && q.kind == CompareKind && q.number == a
    ensures q.options == [a, b] && q.answer in q.options
    ensures q.answer >= a && q.answer >= b
  {
    var bigger := Max(a, b);
    Question(CompareKind, a, Decompose(a), bigger, [a, b], [Note([]), Note([a, b]), Note([bigger])])
  }

  /** The first draw of the stream that differs from a: the b `genCompare`'s loop stops at. */
  function FirstOther(a: nat, bs: seq<nat>): (r: Option<nat>)
    ensures r.Some? ==> r.value in bs && r.value != a
    ensures r.None? <==> forall i | 0 <= i < |bs| :: bs[i] == a
  {
    if bs == [] then None
    else if bs[0] != a then Some(bs[0])
    else FirstOther(a, bs[1..])
  }

  /** Every draw before the one `FirstOther` returns equals a. */
  lemma {:induction false} FirstOtherIsFirst(a: nat, bs: seq<nat>)
    requires FirstOther(a, bs).Some?
    ensures exists i | 0 <= i < |bs| :: bs[i] == FirstOther(a, bs).value && forall j | 0 <= j < i :: bs[j] == a
  {
    if bs[0] == a {
      FirstOtherIsFirst(a, bs[1..]);
      var i :| 0 <= i < |bs[1..]| && bs[1..][i] == FirstOther(a, bs[1..]).value
                 && forall j | 0 <= j < i :: bs[1..][j] == a;
      assert bs[i + 1] == FirstOther(a, bs).value;
      assert forall j | 0 <= j < i + 1 :: bs[j] == a by {
        forall j | 0 <= j < i + 1 ensures bs[j] == a {
          if j > 0 {
            assert bs[j] == bs[1..][j - 1];
          }
        }
      }
    } else {
      assert bs[0] == FirstOther(a, bs).value;
    }
  }

  /** Whatever a is, some value of b's range differs from it, so one draw can end the loop. */
  lemma OtherDrawExists(a: nat)
    requires 1000 <= a <= 9999
    ensures exists b | 1000 <= b <= 9999 :: FirstOther(a, [b]) == Some(b)
  {
    var b := if a == 1000 then 1001 else 1000;
    assert 1000 <= b <= 9999 && FirstOther(a, [b]) == Some(b);
  }

  /**
   * `genCompare`: a drawn from [1000, 9999], then b drawn again from the
   * stream `bs` until it differs from a.
   */
  method GenCompare(a: nat, bs: seq<nat>) returns (q: Question)
    requires 1000 <= a <= 9999
    requires forall i | 0 <= i < |bs| :: 1000 <= bs[i] <= 9999
    requires FirstOther(a, bs).Some?
    ensures q == CompareQuestion(a, FirstOther(a, bs).value)
  {
    var i := 0;
    var b := bs[0];
    while b == a
      invariant 0 <= i < |bs| && b == bs[i]
      invariant FirstOther(a, bs) == FirstOther(a, bs[i..])
      decreases |bs| - i
    {
      assert bs[i..][1..] == bs[i + 1..];
      i := i + 1;
      b := bs[i];
    }
    q := CompareQuestion(a, b);
  }

  /**
   * One slot of `generateQuestions`: the kind `Math.floor(Math.random() * 4)`
   * picked and the draws that kind makes, in order: [n, place] for
   * decompose, [th, h, t, o] for compose, [n] and u for digit value, and
   * [a, b1, b2, ...] for compare.
   */
  datatype Slot = Slot(kind: Kind, draws: seq<nat>, u: real)

  predicate ValidSlot(s: Slot)
  {
    var d := s.draws;
    match s.kind
    case DecomposeKind => |d| == 2 && 1000 <= d[0] <= 9999 && d[1] <= 3
    case ComposeKind => |d| == 4 && 1 <= d[0] <= 9 && d[1] <= 9 && d[2] <= 9 && d[3] <= 9
    case DigitValueKind => |d| == 1 && 1000 <= d[0] <= 9999 && 0.0 <= s.u < 1.0
    case CompareKind =>
      && |d| >= 1
      && (forall i | 0 <= i < |d| :: 1000 <= d[i] <= 9999)
      && FirstOther(d[0], d[1..]).Some?
  }

  /** The question a slot yields. */
  function SlotQuestion(s: Slot): (q: Question)
    requires ValidSlot(s)
    ensures Consistent(q) && q.kind == s.kind
  {
    var d := s.draws;
    match s.kind
    case DecomposeKind => GenDecompose(d[0], d[1])
    case ComposeKind => GenCompose(d[0], d[1], d[2], d[3])
    case DigitValueKind => GenDigitValue(d[0], s.u)
    case CompareKind => CompareQuestion(d[0], FirstOther(d[0], d[1..]).value)
  }

  /** `generateQuestions(count)`: one question per slot. */
  method GenerateQuestions(count: nat, slots: seq<Slot>) returns (qs: seq<Question>)
    requires |slots| == count
    requires forall i | 0 <= i < count :: ValidSlot(slots[i])
    ensures |qs| == count
    ensures forall i | 0 <= i < count :: qs[i] == SlotQuestion(slots[i]) && Consistent(qs[i])
  {
    qs := [];
    for i := 0 to count
      invariant |qs| == i
      invariant forall k | 0 <= k < i :: qs[k] == SlotQuestion(slots[k])
    {
      var s := slots[i];
      var q;
      if s.kind == CompareKind {
        assert forall j | 0 <= j < |s.draws[1..]| :: s.draws[1..][j] == s.draws[j + 1];
        q := GenCompare(s.draws[0], s.draws[1..]);
      } else {
        q := SlotQuestion(s);
      }
      qs := qs + [q];
    }
  }
}
