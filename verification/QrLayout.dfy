/** Where things are in the 37 x 37 symbol: function patterns, format modules and the
    two-column zigzag of the data bits.

    Cell and StepOf show that the zigzag visits every module outside the timing column
    exactly once, and the count of the visited data modules is 1079: all 1072 bits of the
    134 codewords land, with 7 modules to spare.
 */
module QrLayout {
  import opened Wrappers

  const SIZE := 37

  predicate InSymbol(row: int, column: int) {
    0 <= row < SIZE && 0 <= column < SIZE
  }

  // ----- Function patterns --------------------------------------------------------------------

  function Abs(a: int): nat { if a < 0 then -a else a }

  function Max(a: int, b: int): int { if a < b then b else a }

  /** Chebyshev distance: the number of the square ring around (centerX, centerY). */
  function Ring(x: int, y: int, centerX: int, centerY: int): nat {
    Max(Abs(x - centerX), Abs(y - centerY))
  }

  /** The three finder patterns with their separators: everything within ring 4 of a centre. */
  predicate InFinder(x: int, y: int) {
    Ring(x, y, 3, 3) <= 4 || Ring(x, y, SIZE - 4, 3) <= 4 || Ring(x, y, 3, SIZE - 4) <= 4
  }

  predicate InTiming(x: int, y: int) {
    (y == 6 && 8 <= x < SIZE - 8) || (x == 6 && 8 <= y < SIZE - 8)
  }

  predicate InAlignment(x: int, y: int) {
    Ring(x, y, 30, 30) <= 2
  }

  predicate IsDarkModule(x: int, y: int) {
    x == 8 && y == SIZE - 8
  }

  function FirstCoordinate(index: int): (int, int)
    requires 0 <= index < 15
  {
    if index < 6 then (8, index) else if index < 8 then (8, index + 1) else (8, SIZE - 15 + index)
  }

  function SecondCoordinate(index: int): (int, int)
    requires 0 <= index < 15
  {
    if index < 8 then (SIZE - index - 1, 8) else if index < 9 then (15 - index, 8) else (15 - index - 1, 8)
  }

  /** The index of the format bit drawn at a module, or -1. */
  function FormatIndex(x: int, y: int): int {
    if x == 8 then
      if 0 <= y < 6 then y else if y == 7 || y == 8 then y - 1
      else if SIZE - 7 <= y < SIZE then y - (SIZE - 15) else -1
    else if y == 8 then
      if SIZE - 8 <= x < SIZE then SIZE - 1 - x else if x == 7 then 8 else if 0 <= x < 6 then 14 - x else -1
    else -1
  }

  /** Each of the 30 format coordinates carries its own bit, and there are no others. */
  lemma {:induction false} FormatIndexInverse(x: int, y: int)
    ensures FormatIndex(x, y) < 15
    ensures FormatIndex(x, y) >= 0 ==>
              (x, y) == FirstCoordinate(FormatIndex(x, y)) || (x, y) == SecondCoordinate(FormatIndex(x, y))
    ensures forall i | 0 <= i < 15 :: FormatIndex(FirstCoordinate(i).0, FirstCoordinate(i).1) == i
    ensures forall i | 0 <= i < 15 :: FormatIndex(SecondCoordinate(i).0, SecondCoordinate(i).1) == i
  {
  }

  predicate IsFormat(x: int, y: int) { FormatIndex(x, y) >= 0 }

  /** The modules that carry no data: three corners, row 6, column 6 and the alignment square. */
  predicate IsFunction(x: int, y: int) {
    || (x <= 8 && y <= 8)
    || (x >= SIZE - 8 && y <= 8)
    || (x <= 8 && y >= SIZE - 8)
    || x == 6
    || y == 6
    || (28 <= x <= 32 && 28 <= y <= 32)
  }

  /** Those are exactly the finder, timing, alignment, dark and format modules. */
  lemma {:induction false} FunctionModules(x: int, y: int)
    requires InSymbol(y, x)
    ensures IsFunction(x, y) <==>
              InFinder(x, y) || InTiming(x, y) || InAlignment(x, y) || IsDarkModule(x, y) || IsFormat(x, y)
  {
  }

  /** The colour of the fixed patterns; format modules are light until they are drawn. */
  predicate IsDark(x: int, y: int) {
    if Ring(x, y, 3, 3) <= 4 then Ring(x, y, 3, 3) in {0, 1, 3}
    else if Ring(x, y, SIZE - 4, 3) <= 4 then Ring(x, y, SIZE - 4, 3) in {0, 1, 3}
    else if Ring(x, y, 3, SIZE - 4) <= 4 then Ring(x, y, 3, SIZE - 4) in {0, 1, 3}
    else if InTiming(x, y) then (x + y) % 2 == 0
    else if InAlignment(x, y) then Ring(x, y, 30, 30) in {0, 2}
    else IsDarkModule(x, y)
  }

  /** The parts do not overlap inside the symbol. */
  lemma {:induction false} PatternsAreDisjoint(x: int, y: int)
    requires InSymbol(y, x)
    ensures InTiming(x, y) ==> !InFinder(x, y) && !InAlignment(x, y)
    ensures InAlignment(x, y) ==> !InFinder(x, y)
    ensures IsFormat(x, y) || IsDarkModule(x, y) ==> !InFinder(x, y) && !InTiming(x, y) && !InAlignment(x, y)
    ensures IsDarkModule(x, y) ==> !IsFormat(x, y)
  {
  }

  // ----- The zigzag ---------------------------------------------------------------------------

  const PAIRS := 18
  const STEPS := 2 * SIZE * PAIRS

  /** The right-hand column of a pair; the timing column 6 belongs to no pair. */
  function RightColumn(pair: int): int {
    if pair < 15 then SIZE - 1 - 2 * pair else SIZE - 2 - 2 * pair
  }

  /** Even pairs are walked upwards, odd pairs downwards. */
  function RowAt(pair: int, offset: int): int {
    if pair % 2 == 0 then SIZE - 1 - offset else offset
  }

  function Step(pair: int, offset: int, side: int): int {
    2 * SIZE * pair + 2 * offset + side
  }

  function PairOf(step: int): int { step / (2 * SIZE) }

  function OffsetOf(step: int): int { step % (2 * SIZE) / 2 }

  function SideOf(step: int): int { step % (2 * SIZE) % 2 }

  lemma {:induction false} StepParts(pair: int, offset: int, side: int)
    requires 0 <= offset < SIZE && 0 <= side < 2
    ensures PairOf(Step(pair, offset, side)) == pair
    ensures OffsetOf(Step(pair, offset, side)) == offset
    ensures SideOf(Step(pair, offset, side)) == side
  {
    var rest := 2 * offset + side;
    assert Step(pair, offset, side) == (2 * SIZE) * pair + rest && 0 <= rest < 2 * SIZE;
  }

  lemma {:induction false} PartsStep(step: int)
    ensures Step(PairOf(step), OffsetOf(step), SideOf(step)) == step
    ensures 0 <= OffsetOf(step) < SIZE && 0 <= SideOf(step) < 2
  {
  }

  /** The module visited at a step, as (row, column). */
  function Cell(step: int): (int, int) {
    (RowAt(PairOf(step), OffsetOf(step)), RightColumn(PairOf(step)) - SideOf(step))
  }

  /** Columns counted without column 6, from the right. */
  function FromRight(column: int): int {
    if column > 6 then SIZE - 1 - column else SIZE - 2 - column
  }

  function StepOf(row: int, column: int): int {
    var pair := FromRight(column) / 2;
    Step(pair, RowAt(pair, row), FromRight(column) % 2)
  }

  /** The walk and its inverse: a bijection between steps and modules outside column 6. */
  lemma {:induction false} CellOfStepOf(row: int, column: int)
    requires InSymbol(row, column) && column != 6
    ensures 0 <= StepOf(row, column) < STEPS
    ensures Cell(StepOf(row, column)) == (row, column)
  {
    var pair := FromRight(column) / 2;
    StepParts(pair, RowAt(pair, row), FromRight(column) % 2);
  }

  lemma {:induction false} StepOfCell(step: int)
    requires 0 <= step < STEPS
    ensures InSymbol(Cell(step).0, Cell(step).1) && Cell(step).1 != 6
    ensures StepOf(Cell(step).0, Cell(step).1) == step
  {
    PartsStep(step);
    var pair := PairOf(step);
    assert 0 <= pair < PAIRS;
    assert FromRight(RightColumn(pair) - SideOf(step)) == 2 * pair + SideOf(step);
  }

  /** The two steps of a row of a pair. */
  lemma {:induction false} StepsOfRow(pair: int, offset: int)
    requires 0 <= pair < PAIRS && 0 <= offset < SIZE
    ensures var s := Step(pair, offset, 0);
            && 0 <= s && s + 1 < STEPS && s + 2 == Step(pair, offset + 1, 0)
            && Cell(s) == (RowAt(pair, offset), RightColumn(pair))
            && Cell(s + 1) == (RowAt(pair, offset), RightColumn(pair) - 1)
  {
    StepParts(pair, offset, 0);
    StepParts(pair, offset, 1);
  }

  lemma {:induction false} TimingColumnIsFunction(row: int)
    requires 0 <= row < SIZE
    ensures IsFunction(6, row)
  {
  }

  // ----- Counting the data modules -------------------------------------------------------------

  predicate IsData(step: int) {
    !IsFunction(Cell(step).1, Cell(step).0)
  }

  /** The number of data modules visited before a step: the index of the next data bit. */
  function Rank(step: nat): nat {
    if step == 0 then 0 else Rank(step - 1) + if IsData(step - 1) then 1 else 0
  }

  function Overlap(a: int, b: int, low: int, high: int): int {
    Max(0, (if b < high then b else high) - Max(a, low))
  }

  lemma {:induction false} OverlapAdds(a: int, b: int, c: int, low: int, high: int)
    requires a <= b <= c && low <= high
    ensures Overlap(a, b, low, high) + Overlap(b, c, low, high) == Overlap(a, c, low, high)
  {
  }

  /** Function modules of a pair of columns in the rows from a up to b. */
  function FunctionInRows(pair: int, a: int, b: int): int {
    if pair < 2 then 2 * Overlap(a, b, 0, 9)
    else if pair < 4 then 2 * Overlap(a, b, 0, 9) + 2 * Overlap(a, b, 28, 33)
    else if pair == 4 then 2 * Overlap(a, b, 6, 7) + Overlap(a, b, 28, 33)
    else if pair < 14 then 2 * Overlap(a, b, 6, 7)
    else 2 * Overlap(a, b, 0, 9) + 2 * Overlap(a, b, 29, 37)
  }

  lemma {:induction false} FunctionInRow(pair: int, row: int)
    requires 0 <= pair < PAIRS && 0 <= row < SIZE
    ensures FunctionInRows(pair, row, row + 1) ==
              One(IsFunction(RightColumn(pair), row)) + One(IsFunction(RightColumn(pair) - 1, row))
  {
  }

  lemma {:induction false} FunctionInRowsAdds(pair: int, a: int, b: int, c: int)
    requires a <= b <= c
    ensures FunctionInRows(pair, a, b) + FunctionInRows(pair, b, c) == FunctionInRows(pair, a, c)
  {
    hide Overlap;
    OverlapAdds(a, b, c, 0, 9);
    OverlapAdds(a, b, c, 28, 33);
    OverlapAdds(a, b, c, 6, 7);
    OverlapAdds(a, b, c, 29, 37);
  }

  /** Function modules among the first rows visited in a pair. */
  function FunctionVisited(pair: int, offsets: int): int {
    if pair % 2 == 0 then FunctionInRows(pair, SIZE - offsets, SIZE) else FunctionInRows(pair, 0, offsets)
  }

  lemma {:induction false} VisitRow(pair: int, offset: int)
    requires 0 <= pair < PAIRS && 0 <= offset < SIZE
    ensures var row := RowAt(pair, offset);
            FunctionVisited(pair, offset + 1) == FunctionVisited(pair, offset) +
              One(IsFunction(RightColumn(pair), row)) + One(IsFunction(RightColumn(pair) - 1, row))
  {
    var row := RowAt(pair, offset);
    FunctionInRow(pair, row);
    if pair % 2 == 0 {
      FunctionInRowsAdds(pair, row, row + 1, SIZE);
    } else {
      FunctionInRowsAdds(pair, 0, row, row + 1);
    }
  }

  lemma {:induction false} IsDataAt(pair: int, offset: int, side: int)
    requires 0 <= offset < SIZE && 0 <= side < 2
    ensures IsData(Step(pair, offset, side)) <==> !IsFunction(RightColumn(pair) - side, RowAt(pair, offset))
  {
    StepParts(pair, offset, side);
  }

  lemma {:induction false} RankOfRow(pair: nat, offset: nat)
    requires pair < PAIRS && offset < SIZE
    ensures var row, s := RowAt(pair, offset), Step(pair, offset, 0);
            Rank(s + 2) == Rank(s) + 2 - One(IsFunction(RightColumn(pair), row))
                                       - One(IsFunction(RightColumn(pair) - 1, row))
  {
    hide IsData, IsFunction, RowAt, RightColumn;
    IsDataAt(pair, offset, 0);
    IsDataAt(pair, offset, 1);
    assert Step(pair, offset, 1) == Step(pair, offset, 0) + 1;
  }

  lemma {:induction false} NoneVisited(pair: int)
    ensures FunctionVisited(pair, 0) == 0
  {
  }

  lemma {:induction false} RankWithinPair(pair: nat, offsets: nat)
    requires pair < PAIRS && offsets <= SIZE
    ensures Rank(Step(pair, offsets, 0)) == Rank(Step(pair, 0, 0)) + 2 * offsets - FunctionVisited(pair, offsets)
  {
    hide Rank, IsFunction, RowAt, FunctionInRows;
    NoneVisited(pair);
    if offsets > 0 {
      assert Step(pair, offsets, 0) == Step(pair, offsets - 1, 0) + 2;
      RankWithinPair(pair, offsets - 1);
      RankOfRow(pair, offsets - 1);
      VisitRow(pair, offsets - 1);
    }
  }

  lemma {:induction false} RankOfNextPair(pair: nat)
    requires pair < PAIRS
    ensures Rank(Step(pair + 1, 0, 0)) == Rank(Step(pair, 0, 0)) + 2 * SIZE - FunctionInRows(pair, 0, SIZE)
  {
    RankWithinPair(pair, SIZE);
  }

  /** Data modules in the pairs before a pair. */
  function DataBefore(pair: int): int {
    if pair <= 2 then 56 * pair
    else if pair <= 4 then 112 + 46 * (pair - 2)
    else if pair == 5 then 271
    else if pair <= 14 then 271 + 72 * (pair - 5)
    else 919 + 40 * (pair - 14)
  }

  lemma {:induction false} RankOfPair(pair: nat)
    requires pair <= PAIRS
    ensures Rank(Step(pair, 0, 0)) == DataBefore(pair)
  {
    hide Rank;
    if pair == 0 {
      RankAtStart();
    } else {
      RankOfPair(pair - 1);
      RankOfNextPair(pair - 1);
    }
  }

  lemma {:induction false} RankAtStart()
    ensures Rank(Step(0, 0, 0)) == 0
  {
  }

  /** There are 1079 data modules: 134 codewords of eight bits and seven spare modules. */
  lemma {:induction false} DataModules()
    ensures Rank(STEPS) == 1079
  {
    RankOfPair(PAIRS);
  }
}
