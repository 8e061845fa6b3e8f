# Math games: question generators and grading

This project is a Dafny model of the logic library behind a children's
arithmetic quiz app. The screens draw a batch of questions for a topic. The
child answers them one at a time. A score out of the batch size earns one to
three stars. The model covers the part of the app that decides what a
question is, what its answer is, and what the worked solution shows:

- **Column arithmetic** (`column_arithmetic.dfy`, module `ColumnArithmetic`).
  This is the step-by-step vertical solution. Addition and subtraction walk
  the zero-padded digits from the units column leftwards. Addition threads a
  carry and subtraction a borrow, and each column yields one step record. The
  module also builds the carry row and borrow markers drawn above the digits.
  The loops are methods. Each is proved equal to a specification function,
  and lemmas prove what those functions compute: the results spell the
  decimal digits of a + b, or of a − b padded to the column count.
- **Vertical math questions** (`vertical_math.dfy`, `VerticalMath`). The module
  has the cheap carry and borrow detectors and the hint line structure. It
  also has eight rejection-sampling generators (vertical or horizontal; add
  or subtract; with or without regrouping). The main theorem is that the
  detectors, which look only at each column's own digits, agree with the
  full carry and borrow trace.
- **Arithmetic** (`arithmetic.dfy`), **order of operations**
  (`order_of_ops.dfy`), **place value** (`decimal_structure.dfy`) and
  **distributive multiplication** (`distribution.dfy`). These are the
  per-topic generators. Each question's answer is proved equal to the
  evaluation of its own operands. For order of operations the expression is
  a token sequence evaluated by an independent precedence parser
  (parentheses, then × and ÷, then + and −).
- **Triangles** (`triangles.dfy`). This holds the constant table of
  triangles, the Fisher–Yates shuffle on a copied array, and the routine
  that repeats the shuffled table to fill a batch.
- **Stars** (`scoring.dfy`). This is the grading function.

`digits.dfy` (`DecimalDigits`) and `common.dfy` (`Common`) are shared
definitions:

- digit sequences are least significant first, with `Value`, `Digits` and
  padding;
- `Apply` evaluates one operator exactly (division only when it leaves no
  remainder);
- `TrueLine` says a hint equation is correct;
- `RandInt` is the app's `randInt` over an explicit uniform draw.

Random draws are parameters. A value `randInt(min, max)` would return is
passed in with a `requires min <= x <= max`, or as a real `u` in [0, 1) when
its range depends on earlier draws. A `do … while` rejection loop is a method
over a finite stream of draws. It requires that the stream holds an accepted
draw, and it is proved to return the question built from the first accepted
draw.

## Model

| member | source | states |
|---|---|---|
| ColumnArithmetic.Width | src/topics/verticalMath/VerticalSolution.tsx:20-22 | the padded width is at least 1, is at least each operand's digit count, and equals one of them |
| ColumnArithmetic.GetAdditionSteps | src/topics/verticalMath/VerticalSolution.tsx:19-69 | the loop's steps are the addition trace, and their results are exactly the decimal digits of a + b |
| ColumnArithmetic.AddPaddedColumns | src/topics/verticalMath/VerticalSolution.tsx:28-66 | the column loop plus the extra column equals the trace function over the padded digits |
| ColumnArithmetic.AddColumnsValue | src/topics/verticalMath/VerticalSolution.tsx:30-57 | after m columns, the results' value plus carry·10^m equals the value of the first m digits of a plus those of b |
| ColumnArithmetic.AddTraceShape | src/topics/verticalMath/VerticalSolution.tsx:30-66 | the trace has maxLen steps, or exactly one more iff the final carry is nonzero; step k reads the k-th padded digits; the extra step reads zeros |
| ColumnArithmetic.AddTraceValue | src/topics/verticalMath/VerticalSolution.tsx:30-66 | the results are digits, and their value is the sum of the operands' values |
| ColumnArithmetic.AddTraceOverflow | src/topics/verticalMath/VerticalSolution.tsx:59-66 | a carry leaves the top column iff the sum needs more than maxLen digits |
| ColumnArithmetic.AddTraceCanonical | src/topics/verticalMath/VerticalSolution.tsx:30-66 | when the top padded column is not 0+0, the results are the canonical digits of the sum (no leading zero) |
| ColumnArithmetic.AdditionStepsShape | src/topics/verticalMath/VerticalSolution.tsx:21-30 | the trace has maxLen or maxLen+1 steps; one more iff the top column's carryOut is nonzero iff a + b ≥ 10^maxLen |
| ColumnArithmetic.AdditionStepArithmetic | src/topics/verticalMath/VerticalSolution.tsx:28-56 | the first carryIn is 0, each carryIn is the previous carryOut, carries are 0 or 1, and result and carryOut are the column sum mod and div 10 |
| ColumnArithmetic.AdditionStepDigits | src/topics/verticalMath/VerticalSolution.tsx:20-32 | step k's digitA and digitB are the k-th decimal digits of a and b (0 beyond their length) |
| ColumnArithmetic.AdditionResultsSpellSum | src/topics/verticalMath/VerticalSolution.tsx:30-66 | reading the results spells the decimal digits of a + b |
| ColumnArithmetic.SubPaddedColumns | src/topics/verticalMath/VerticalSolution.tsx:82-119 | the borrow loop equals the subtraction trace function over the padded digits |
| ColumnArithmetic.GetSubtractionSteps | src/topics/verticalMath/VerticalSolution.tsx:71-122 | the steps are the subtraction trace, and when a ≥ b their results are the digits of a − b zero-padded to the column count |
| ColumnArithmetic.SubColumnsValue | src/topics/verticalMath/VerticalSolution.tsx:82-119 | after m columns, the results' value equals a's m-digit prefix minus b's plus borrow·10^m |
| ColumnArithmetic.SubTraceValue | src/topics/verticalMath/VerticalSolution.tsx:82-119 | the results are digits; the final borrow is 1 iff a < b; their value is a − b + borrow·10^maxLen |
| ColumnArithmetic.SubTracePadded | src/topics/verticalMath/VerticalSolution.tsx:71-122 | with a ≥ b the results are the digits of a − b padded to maxLen |
| ColumnArithmetic.SubtractionStepArithmetic | src/topics/verticalMath/VerticalSolution.tsx:79-118 | exactly maxLen steps; borrow chain starts at 0; carryOut is 1 iff digitA − carryIn < digitB; result = digitA − carryIn + 10·carryOut − digitB ≤ 9 |
| ColumnArithmetic.SubtractionStepDigits | src/topics/verticalMath/VerticalSolution.tsx:72-85 | step k reads the k-th decimal digits of a and b |
| ColumnArithmetic.SubtractionResults | src/topics/verticalMath/VerticalSolution.tsx:71-122 | the last carryOut is 1 iff a < b; the results' value is a − b plus that borrow·10^maxLen; for a ≥ b they are the padded digits of a − b |
| ColumnArithmetic.DisplayWidth | src/topics/verticalMath/VerticalSolution.tsx:130 | the display width covers both operands and the answer, and equals one of those lengths |
| ColumnArithmetic.CarryRowPadded | src/topics/verticalMath/VerticalSolution.tsx:136-146 | position j of the row holds the carry out of the column to its right; nothing is drawn for the leftmost column's carry |
| ColumnArithmetic.CarryRow | src/topics/verticalMath/VerticalSolution.tsx:130-146 | the row has one entry per display column; with answer a + b it lines up with the addition trace: the last entry is empty and entry j shows the carryOut of step w−2−j |
| ColumnArithmetic.AdditionStepsFillDisplay | src/topics/verticalMath/VerticalSolution.tsx:125-130 | with the true answer, the addition trace has exactly as many steps as the display has columns |
| ColumnArithmetic.DisplayCarries | src/topics/verticalMath/VerticalSolution.tsx:130-146 | the carry into each display column equals the carryIn that getAdditionSteps records for it |
| ColumnArithmetic.CarriesFollowChain | src/topics/verticalMath/VerticalSolution.tsx:136-146 | a carry row drawn from the carries into each column reads the trace's carryOut one column to the right, with an empty last entry |
| ColumnArithmetic.CarryRowMatchesSteps | src/topics/verticalMath/VerticalSolution.tsx:136-146 | the carries computed over the display padding are the carryOuts recorded by getAdditionSteps |
| ColumnArithmetic.BorrowMarkersPadded | src/topics/verticalMath/VerticalSolution.tsx:149-162 | position j is marked exactly when the column to its right borrowed |
| ColumnArithmetic.BorrowMarkers | src/topics/verticalMath/VerticalSolution.tsx:130-162 | one marker per display column; with a ≥ b and answer a − b the markers follow getSubtractionSteps' carryOut and the leftmost is never marked |
| ColumnArithmetic.BorrowMarkersMatchSteps | src/topics/verticalMath/VerticalSolution.tsx:149-162 | the borrows computed over the display padding are the borrows recorded by getSubtractionSteps |
| VerticalMath.CheckCarryPadded | src/topics/verticalMath/generateVerticalMath.ts:24-30 | the early-return loop answers whether some column's raw digits sum to 10 or more |
| VerticalMath.CheckBorrowPadded | src/topics/verticalMath/generateVerticalMath.ts:36-42 | the early-return loop answers whether some column has digitA < digitB |
| VerticalMath.CheckCarryAdd | src/topics/verticalMath/generateVerticalMath.ts:18-31 | true iff some aligned column's digits sum to ≥ 10, and equally iff the addition trace has a step with a carry |
| VerticalMath.CheckBorrow | src/topics/verticalMath/generateVerticalMath.ts:33-43 | true iff some aligned column has digitA < digitB, and equally iff the subtraction trace has a step that borrows |
| VerticalMath.CarryHasRawSource | src/topics/verticalMath/generateVerticalMath.ts:28 | a carry reaching column m was started by some lower column whose own digits sum to ≥ 10 |
| VerticalMath.BorrowHasRawSource | src/topics/verticalMath/generateVerticalMath.ts:40 | a borrow reaching column m was started by some lower column with digitA < digitB |
| VerticalMath.RawCarryIffTraceCarries | src/topics/verticalMath/generateVerticalMath.ts:18-31 | over padded digits, a raw carry column exists iff the trace records a carry |
| VerticalMath.RawBorrowIffTraceBorrows | src/topics/verticalMath/generateVerticalMath.ts:33-43 | over padded digits, a raw borrow column exists iff the trace records a borrow |
| VerticalMath.CarryDetectorAgrees | src/topics/verticalMath/generateVerticalMath.ts:18-31 | checkCarryAdd(a, b) iff getAdditionSteps(a, b) has a step with carryOut > 0 |
| VerticalMath.BorrowDetectorAgrees | src/topics/verticalMath/generateVerticalMath.ts:33-43 | checkBorrow(a, b) iff getSubtractionSteps(a, b) has a step with carryOut 1 |
| VerticalMath.BuildAddHint | src/topics/verticalMath/generateVerticalMath.ts:45-57 | the pushed lines are the addition hint's line structure |
| VerticalMath.BuildSubHint | src/topics/verticalMath/generateVerticalMath.ts:59-71 | the pushed lines are the subtraction hint's line structure |
| VerticalMath.AddVerticalHintLines | src/topics/verticalMath/generateVerticalMath.ts:45-57 | 2 to 4 lines; the first asks "a + b = ?" and the last gives the answer; 2 lines iff no carry; the units-carry line appears iff the units column carries, and its sum, written digit and carry are correct |
| VerticalMath.SubVerticalHintLines | src/topics/verticalMath/generateVerticalMath.ts:59-71 | 2 to 5 lines; the first asks "a − b = ?" and the last gives the answer; 2 lines iff no borrow; the borrow lines appear iff the units column borrows, and the difference they show is the units digit of a − b |
| VerticalMath.UnitsColumnOfAddition | src/topics/verticalMath/generateVerticalMath.ts:50 | the trace's units step carries iff a % 10 + b % 10 ≥ 10 |
| VerticalMath.UnitsColumnOfSubtraction | src/topics/verticalMath/generateVerticalMath.ts:64 | the trace's units step borrows iff a % 10 < b % 10 |
| VerticalMath.ARange | src/topics/verticalMath/generateVerticalMath.ts:75-155 | each variant's first draw range is nonempty |
| VerticalMath.BRange | src/topics/verticalMath/generateVerticalMath.ts:75-155 | each second draw range is nonempty for every first draw (e.g. randInt(100, a−100) with a ≥ 200) |
| VerticalMath.Attempt | src/topics/verticalMath/generateVerticalMath.ts:76-82 | one pass of a loop body draws a then b and rejects exactly when the variant's condition fails |
| VerticalMath.Assemble | src/topics/verticalMath/generateVerticalMath.ts:75-155 | the generator's return builds the question for the accepted pair: answer, regrouping flag and hint lines |
| VerticalMath.Generate | src/topics/verticalMath/generateVerticalMath.ts:75-155 | the do … while loop returns the question built from the first accepted draw |
| VerticalMath.FirstAcceptedIsFirst | src/topics/verticalMath/generateVerticalMath.ts:75-155 | the returned question comes from an accepted draw and every earlier draw was rejected |
| VerticalMath.AcceptedDrawStops | src/topics/verticalMath/generateVerticalMath.ts:75-155 | any stream containing an accepted draw ends the loop |
| VerticalMath.WitnessAccepted | src/topics/verticalMath/generateVerticalMath.ts:75-155 | each variant has an in-range pair its condition accepts |
| VerticalMath.AcceptingDrawExists | src/topics/verticalMath/generateVerticalMath.ts:75-155 | for every variant some draw ends the loop |
| VerticalMath.DrawInRange | src/topics/verticalMath/generateVerticalMath.ts:75-155 | every draw lands in the variant's [min, max] for a, then for b given a |
| VerticalMath.AcceptedQuestion | src/topics/verticalMath/generateVerticalMath.ts:75-155 | answer is a + b or a − b; b ≤ a; sums within 999 or 99 when no carry is wanted; differences at least 100, 10 or 5; hasCarry is checkCarryAdd or checkBorrow and matches the trace; the hint opens with the question, ends with the answer, and has 2 lines iff no regrouping |
| VerticalMath.GeneratedQuestion | src/topics/verticalMath/generateVerticalMath.ts:75-155 | the loop's question is built from in-range operands the variant accepts |
| VerticalMath.GenerateQuestions | src/topics/verticalMath/generateVerticalMath.ts:157-170 | count questions, each the generator the pick selected, run on its stream |
| Arithmetic.GenerateAddition | src/topics/arithmetic/generateArithmetic.ts:15-29 | answer = a + b for a, b in [10, 99]; the hint opens with "a + b = ?" and its equation is true |
| Arithmetic.GenerateSubtraction | src/topics/arithmetic/generateArithmetic.ts:31-45 | built backwards: a − b = answer ≥ 5 and a ≥ b, never negative |
| Arithmetic.GenerateMultiplication | src/topics/arithmetic/generateArithmetic.ts:47-62 | answer = a · b in [4, 100]; three hint lines, all true |
| Arithmetic.GenerateDivision | src/topics/arithmetic/generateArithmetic.ts:64-80 | a = b · answer, so a % b == 0 and a / b == answer; four hint lines, all true |
| Arithmetic.DivisionIsExact | src/topics/arithmetic/generateArithmetic.ts:66-68 | a product divided by one factor leaves no remainder and yields the other |
| Arithmetic.GenerateQuestion | src/topics/arithmetic/generateArithmetic.ts:82-87 | the picked generator's question is sound, uses the picked operator, and has answer ≥ 2 (≥ 5 for subtraction) |
| Arithmetic.GenerateQuestions | src/topics/arithmetic/generateArithmetic.ts:89-91 | count sound questions, one per slot |
| OrderOfOps.TermOfProduct | src/topics/orderOfOps/generateOrderOfOps.ts:11-118 | × and ÷ bind before + and −: "x op y" followed by + or − reads as one term |
| OrderOfOps.FactorOfParen | src/topics/orderOfOps/generateOrderOfOps.ts:65-97 | a parenthesised sum or difference reads as one factor |
| OrderOfOps.ExprOfPair | src/topics/orderOfOps/generateOrderOfOps.ts:65-97 | "x + y" or "x − y" with no operator after it reads as that one operation |
| OrderOfOps.GenType1 | src/topics/orderOfOps/generateOrderOfOps.ts:11-26 | "a + b × c" evaluates to answer = a + b·c; steps are true and end at the answer |
| OrderOfOps.Type1Reads | src/topics/orderOfOps/generateOrderOfOps.ts:11-26 | the precedence parser reads "a + b × c" as a + b·c |
| OrderOfOps.GenType2 | src/topics/orderOfOps/generateOrderOfOps.ts:28-43 | with c in [1, a·b−1], "a × b − c" evaluates to answer = a·b − c ≥ 1 |
| OrderOfOps.Type2Reads | src/topics/orderOfOps/generateOrderOfOps.ts:28-43 | the parser reads "a × b − c" as a·b − c |
| OrderOfOps.GenType3 | src/topics/orderOfOps/generateOrderOfOps.ts:45-63 | with d ≤ min(a+b·c−1, 15), "a + b × c − d" evaluates to answer ≥ 1 in three true steps |
| OrderOfOps.Type3Reads | src/topics/orderOfOps/generateOrderOfOps.ts:45-63 | the parser reads "a + b × c − d" left to right after the product |
| OrderOfOps.GenType4 | src/topics/orderOfOps/generateOrderOfOps.ts:65-80 | "(a + b) × c" evaluates to answer = (a+b)·c |
| OrderOfOps.Type4Reads | src/topics/orderOfOps/generateOrderOfOps.ts:65-80 | the parser reads the parentheses first |
| OrderOfOps.GenType5 | src/topics/orderOfOps/generateOrderOfOps.ts:82-97 | b ≥ c+2, so the bracket is ≥ 2 and "a × (b − c)" evaluates to answer = a·(b−c) |
| OrderOfOps.Type5Reads | src/topics/orderOfOps/generateOrderOfOps.ts:82-97 | the parser reads "a × (b − c)" as a·(b−c) |
| OrderOfOps.GenType6 | src/topics/orderOfOps/generateOrderOfOps.ts:99-118 | a = b·quotient, so the division is exact and "a ÷ b + c × d" evaluates to answer = quotient + c·d |
| OrderOfOps.Type6Reads | src/topics/orderOfOps/generateOrderOfOps.ts:99-118 | the parser reads an exact "a ÷ b + c × d" as a/b + c·d |
| OrderOfOps.DrawRangesNonempty | src/topics/orderOfOps/generateOrderOfOps.ts:28-97 | over the full ranges each shape draws its earlier values from, the dependent draw ranges of types 2, 3 and 5 are never empty |
| OrderOfOps.GenerateQuestion | src/topics/orderOfOps/generateOrderOfOps.ts:120-125 | every picked shape's expression evaluates to its answer, which is ≥ 1, and its last step states the answer |
| OrderOfOps.GenerateQuestions | src/topics/orderOfOps/generateOrderOfOps.ts:127-129 | count sound questions, one per slot |
| DecimalStructure.Decompose | src/topics/decimalStructure/generateDecimal.ts:21-28 | hundreds, tens and ones are digits, and thousands is in 1..9 iff n has four digits |
| DecimalStructure.DecomposeCompose | src/topics/decimalStructure/generateDecimal.ts:21-28 | 1000·th + 100·h + 10·t + o == n |
| DecimalStructure.ComposeDecompose | src/topics/decimalStructure/generateDecimal.ts:56-80 | composing valid places gives a number in [1000, 9999] that decomposes back to them |
| DecimalStructure.GenDecompose | src/topics/decimalStructure/generateDecimal.ts:30-54 | the answer is the digit of n at the asked place, in 0..9, and the places match decompose(n) |
| DecimalStructure.DigitOfPlace | src/topics/decimalStructure/generateDecimal.ts:21-41 | the decomposed place digit is n / placeValue % 10 |
| DecimalStructure.GenCompose | src/topics/decimalStructure/generateDecimal.ts:56-80 | answer = the composed number, whose decomposition is the drawn places; five hint lines: four true products digit × place value, one per place from the thousands down, then a line listing those products and the answer, which they sum to |
| DecimalStructure.PlacesOf | src/topics/decimalStructure/generateDecimal.ts:86-91 | four places with values 1000, 100, 10, 1, each digit from decompose, and value = digit · placeValue |
| DecimalStructure.NonZero | src/topics/decimalStructure/generateDecimal.ts:93 | the filter keeps exactly the places with a nonzero digit |
| DecimalStructure.NonZeroNeverEmpty | src/topics/decimalStructure/generateDecimal.ts:93-96 | a four-digit number always has a nonzero place (its thousands) |
| DecimalStructure.GenDigitValue | src/topics/decimalStructure/generateDecimal.ts:82-109 | the chosen digit is > 0, its place value is in {1000, 100, 10, 1}, and answer = digit · placeValue |
| DecimalStructure.CompareQuestion | src/topics/decimalStructure/generateDecimal.ts:117-136 | options are [a, b], and answer is the larger, one of the options |
| DecimalStructure.FirstOtherIsFirst | src/topics/decimalStructure/generateDecimal.ts:114-116 | the loop's b is the first draw different from a |
| DecimalStructure.OtherDrawExists | src/topics/decimalStructure/generateDecimal.ts:111-116 | for every a in [1000, 9999] some b in the same range differs from a, so a one-draw stream ends the loop |
| DecimalStructure.GenCompare | src/topics/decimalStructure/generateDecimal.ts:111-136 | the do … while loop returns the compare question for a and the first draw ≠ a |
| DecimalStructure.SlotQuestion | src/topics/decimalStructure/generateDecimal.ts:138-142 | every generator's places equal decompose(number) |
| DecimalStructure.GenerateQuestions | src/topics/decimalStructure/generateDecimal.ts:144-146 | count consistent questions, one per slot |
| Distribution.FirstAccepted | src/topics/distribution/generateDistribution.ts:19-22 | the loop's draw is an accepted one from the stream; none exists iff every draw is rejected |
| Distribution.FirstAcceptedIsFirst | src/topics/distribution/generateDistribution.ts:19-22 | every draw before the accepted one was rejected |
| Distribution.AcceptanceRegion | src/topics/distribution/generateDistribution.ts:19-22 | every twoDigit ≤ 22 is accepted whatever oneDigit is |
| Distribution.AcceptingDrawExists | src/topics/distribution/generateDistribution.ts:19-22 | some valid draw ends the loop |
| Distribution.Split | src/topics/distribution/generateDistribution.ts:24-25 | tens + ones == twoDigit, with tens in {10, 20} and ones in 0..9 |
| Distribution.DistributiveLaw | src/topics/distribution/generateDistribution.ts:24-35 | tensProduct + onesProduct == answer == twoDigit · oneDigit ≤ 200 |
| Distribution.GenerateQuestion | src/topics/distribution/generateDistribution.ts:15-36 | the loop's question is built from the first accepted draw and is sound |
| Distribution.GenerateQuestions | src/topics/distribution/generateDistribution.ts:38-40 | count sound questions, one per stream |
| Triangles.PoolWellFormed | src/topics/triangles/triangleData.ts:25-147 | 12 entries; each has three positive angles summing to 180, and its angle and side types match the hint definitions |
| Triangles.PoolDistinct | src/topics/triangles/triangleData.ts:55-147 | no two table entries are equal |
| Triangles.AtMostOneWideAngle | src/topics/triangles/triangleData.ts:25-38 | at most one angle of a triangle is ≥ 90, so "right" and "obtuse" cannot both apply |
| Triangles.Swap | src/topics/triangles/triangleData.ts:153 | the destructuring swap exchanges the two entries and leaves every other position unchanged |
| Triangles.SwapPermutes | src/topics/triangles/triangleData.ts:153 | the swap keeps the multiset of entries |
| Triangles.ShufflePermutes | src/topics/triangles/triangleData.ts:149-156 | the shuffle's result is a permutation of its input |
| Triangles.ShuffleDistinct | src/topics/triangles/triangleData.ts:149-156 | shuffling keeps distinct entries distinct |
| Triangles.Shuffle | src/topics/triangles/triangleData.ts:149-156 | the argument is unchanged, and the fresh copy ends as the Fisher–Yates order for the draws |
| Triangles.RepeatToCount | src/topics/triangles/triangleData.ts:159-164 | exactly count items, item k being the order's item k mod its length |
| Triangles.RepeatedFromPool | src/topics/triangles/triangleData.ts:158-165 | repeating a permutation of the pool yields only pool items, and none twice when count ≤ the pool size |
| Triangles.GetTriangleQuestions | src/topics/triangles/triangleData.ts:158-165 | count items; item k is the shuffled pool's item k mod 12; every item is a table entry; no repeats for count ≤ 12 |
| Scoring.GetStars | src/types/index.ts:92-97 | 1 to 3 stars; for total > 0, 3 iff score·100 ≥ 90·total, 2 iff 60·total ≤ score·100 < 90·total, 1 otherwise |
| Scoring.ThresholdByCrossMultiplying | src/types/index.ts:93-96 | the percentage comparison equals the integer cross-multiplication |
| Scoring.StarsMonotone | src/types/index.ts:93-96 | for a fixed total, a higher score never earns fewer stars |
| Scoring.StarsOutOfTen | src/types/index.ts:93-96 | 10/10 and 9/10 earn 3, 6/10 earns 2, 5/10 and 0/10 earn 1 |
| Common.RandInt | src/topics/verticalMath/generateVerticalMath.ts:14-16 | the draw lies in [min, max] |
| Common.RandIntCovers | src/topics/verticalMath/generateVerticalMath.ts:14-16 | every value of [min, max] can be drawn |

## Left out

- Hebrew text: labels, prompts, hint wording and number formatting are not modelled. A hint line keeps only its numbers (the operands, operator and result it shows).
- The React screens, the session flow, the shared components and the celebration timers are not modelled. They are rendering and hook state.
- The SVG triangle drawing is not modelled. It is floating-point screen geometry, and the table's angles and sides are constants.
- `Math.random` is not modelled and no uniformity claim is made. Every draw is a parameter with its range as a precondition. The random encouragement and wrong-answer messages, the topic list and the unused game-state record are constant data with no behaviour.
- Unbounded rejection loops (the eight vertical-math generators, the compare question's second number, the distributive draw) are modelled over a finite stream of draws. The stream is required to contain a draw the loop accepts, so a stream that never stops the loop is not covered. For each loop, a lemma shows that an accepting draw exists.
- Scoring.GetStars: JavaScript floating-point division is modelled with exact rationals. A total of 0 follows JavaScript's Infinity/NaN comparisons: 3 stars for a positive score, otherwise 1.
- ColumnArithmetic.CarryRow and ColumnArithmetic.BorrowMarkers: the screen computes both rows for whichever operator is shown. The model gives one method per row and relates each to its own trace only when the answer is the true sum or difference.
- The random pick of a generator in each `generateQuestions` is a parameter (a slot, or a real pick for vertical math).
