/**
 * The distributive-multiplication topic (generateDistribution.ts): a
 * two-digit number times a one-digit number, worked out by splitting the
 * two-digit number into its tens and ones.
 */
module Distribution {
  import opened Common

  /** One pass of the `do … while` loop: the two numbers it draws. */
  datatype Draw = Draw(twoDigit: int, oneDigit: int)

  /** Both draws lie in their ranges: [11, 29] and [2, 9]. */
  predicate ValidDraw(d: Draw)
  {
    11 <= d.twoDigit <= 29 && 2 <= d.oneDigit <= 9
  }

  /** The loop stops once the product is at most 200. */
  predicate Accepts(d: Draw)
  {
    d.twoDigit * d.oneDigit <= 200
  }

  predicate AllValid(draws: seq<Draw>)
  {
    forall i | 0 <= i < |draws| :: ValidDraw(draws[i])
  }

  /** The draw the rejection loop stops at, if the stream holds one it accepts. */
  function FirstAccepted(draws: seq<Draw>): (r: Option<Draw>)
    ensures r.Some? ==> r.value in draws && Accepts(r.value)
    ensures r.Some? && AllValid(draws) ==> ValidDraw(r.value)
    ensures r.None? <==> forall i | 0 <= i < |draws| :: !Accepts(draws[i])
  {
    if draws == [] then None
    else if Accepts(draws[0]) then Some(draws[0])
    else FirstAccepted(draws[1..])
  }

  /** Every draw before the one `FirstAccepted` returns was rejected. */
  lemma {:induction false} FirstAcceptedIsFirst(draws: seq<Draw>)
    requires FirstAccepted(draws).Some?
    ensures exists i | 0 <= i < |draws| ::
              draws[i] == FirstAccepted(draws).value && forall j | 0 <= j < i :: !Accepts(draws[j])
  {
    if !Accepts(draws[0]) {
      FirstAcceptedIsFirst(draws[1..]);
      var i :| 0 <= i < |draws[1..]| && draws[1..][i] == FirstAccepted(draws[1..]).value
                 && forall j | 0 <= j < i :: !Accepts(draws[1..][j]);
      assert draws[i + 1] == FirstAccepted(draws).value;
      forall j | 0 <= j < i + 1 ensures !Accepts(draws[j]) {
        if j > 0 {
          assert draws[j] == draws[1..][j - 1];
        }
      }
    } else {
      assert draws[0] == FirstAccepted(draws).value;
    }
  }

  /** Every two-digit draw up to 22 is accepted whatever the one-digit draw. */
  lemma AcceptanceRegion(d: Draw)
    requires ValidDraw(d) && d.twoDigit <= 22
    ensures Accepts(d)
  {
    assert d.twoDigit * d.oneDigit <= 22 * d.oneDigit;
  }

  /** Some valid draw is accepted, so a stream of draws can end the loop. */
  lemma AcceptingDrawExists()
    ensures exists d :: ValidDraw(d) && Accepts(d)
  {
    var d := Draw(11, 2);
    AcceptanceRegion(d);
  }

  /** `Math.floor(twoDigit / 10) * 10` and `twoDigit % 10`. */
  function Split(twoDigit: int): (r: (int, int))
    requires 11 <= twoDigit <= 29
    ensures r.0 + r.1 == twoDigit
    ensures r.0 in {10, 20} && 0 <= r.1 <= 9
  {
    ((twoDigit / 10) * 10, twoDigit % 10)
  }

  datatype Question = Question(twoDigit: int, oneDigit: int, tens: int, ones: int,
                               tensProduct: int, onesProduct: int, answer: int)

  /** The question built from an accepted draw. */
  function Build(d: Draw): (q: Question)
    requires ValidDraw(d)
  {
    var (tens, ones) := Split(d.twoDigit);
    Question(d.twoDigit, d.oneDigit, tens, ones, tens * d.oneDigit, ones * d.oneDigit, d.twoDigit * d.oneDigit)
  }

  /** What every question satisfies: the split is exact and the two partial products add up to the answer. */
  predicate Sound(q: Question)
  {
    && 11 <= q.twoDigit <= 29 && 2 <= q.oneDigit <= 9
    && q.answer == q.twoDigit * q.oneDigit <= 200
    && q.tens + q.ones == q.twoDigit && q.tens in {10, 20} && 0 <= q.ones <= 9
    && q.tensProduct == q.tens * q.oneDigit && q.onesProduct == q.ones * q.oneDigit
    && q.tensProduct + q.onesProduct == q.answer
  }

  /** The distributive law: (tens + ones) × n == tens × n + ones × n. */
  lemma DistributiveLaw(d: Draw)
    requires ValidDraw(d) && Accepts(d)
    ensures Sound(Build(d))
  {
    var q := Build(d);
    assert q.tensProduct + q.onesProduct == (q.tens + q.ones) * d.oneDigit;
  }

  /**
   * `generateQuestion`: draw until the product is at most 200, then split.
   * `draws` stands for the values successive passes of the loop draw.
   */
  method GenerateQuestion(draws: seq<Draw>) returns (q: Question)
    requires AllValid(draws)
    requires FirstAccepted(draws).Some?
    ensures q == Build(FirstAccepted(draws).value)
    ensures Sound(q)
  {
    var i := 0;
    var d := draws[0];
    while !Accepts(d)
      invariant 0 <= i < |draws| && d == draws[i]
      invariant FirstAccepted(draws) == FirstAccepted(draws[i..])
      decreases |draws| - i
    {
      assert draws[i..][1..] == draws[i + 1..];
      i := i + 1;
      d := draws[i];
    }
    var (tens, ones) := Split(d.twoDigit);
    q := Question(d.twoDigit, d.oneDigit, tens, ones, tens * d.oneDigit, ones * d.oneDigit, d.twoDigit * d.oneDigit);
    DistributiveLaw(d);
  }

  /** `generateQuestions(count)`: one question per stream of draws. */
  method GenerateQuestions(count: nat, streams: seq<seq<Draw>>) returns (qs: seq<Question>)
    requires |streams| == count
    requires forall i | 0 <= i < count :: AllValid(streams[i]) && FirstAccepted(streams[i]).Some?
    ensures |qs| == count
    ensures forall i | 0 <= i < count :: qs[i] == Build(FirstAccepted(streams[i]).value) && Sound(qs[i])
  {
    qs := [];
    for i := 0 to count
      invariant |qs| == i
      invariant forall k | 0 <= k < i :: qs[k] == Build(FirstAccepted(streams[k]).value) && Sound(qs[k])
    {
      var q := GenerateQuestion(streams[i]);
      qs := qs + [q];
    }
  }
}
