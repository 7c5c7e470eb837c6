/** Drawing the data and format bits, choosing a mask, and reading the symbol back.

    DrawData walks the zigzag and masks each data bit in place.  ReadSymbol is a reader's
    view of a finished symbol.  The end-to-end theorem: whatever the penalty function
    prefers, reading the matrix of an accepted payload returns that payload.
 */
module QrSymbol {
  import opened QrLayout
  import opened QrMask
  import opened QrBase
  import F = QrFormat
  import D = QrData
  import RS = ReedSolomon
  import opened Wrappers

  type Grid = seq<seq<bool>>

  ghost predicate IsGrid(g: Grid) {
    |g| == SIZE && forall r | 0 <= r < SIZE :: |g[r]| == SIZE
  }

  function Snapshot(m: array2<bool>): (g: Grid)
    requires IsMatrix(m)
    reads m
    ensures IsGrid(g)
  {
    seq(SIZE, r requires 0 <= r < SIZE && IsMatrix(m) reads m =>
      seq(SIZE, c requires 0 <= c < SIZE && IsMatrix(m) reads m => m[r, c]))
  }

  // ----- Data modules -----------------------------------------------------------------------

  /** The data bit of an index; modules beyond the last codeword carry zero. */
  predicate Stream(bits: seq<bool>, index: nat) {
    index < |bits| && bits[index]
  }

  /** The colour of a data module: its bit, inverted where the mask applies. */
  predicate DataModule(bits: seq<bool>, mask: nat, row: int, column: int)
    requires InSymbol(row, column) && column != 6
  {
    CellOfStepOf(row, column);
    Stream(bits, Rank(StepOf(row, column))) != Masked(mask, row, column)
  }

  /** The colour of every module of a finished symbol. */
  predicate Module(bits: seq<bool>, format: seq<bool>, mask: nat, row: int, column: int)
    requires InSymbol(row, column) && |format| == 15
  {
    if IsFormat(column, row) then FormatAt(format, column, row)
    else if IsFunction(column, row) then IsDark(column, row)
    else TimingColumnIsFunction(row); DataModule(bits, mask, row, column)
  }

  function Symbol(bits: seq<bool>, format: seq<bool>, mask: nat): (g: Grid)
    requires |format| == 15
    ensures IsGrid(g)
  {
    seq(SIZE, r requires 0 <= r < SIZE => seq(SIZE, c requires 0 <= c < SIZE => Module(bits, format, mask, r, c)))
  }

  /** What a reader sees of the mask: exactly the data modules marked in the mask's figure differ from
      their bits of the stream. */
  ghost predicate FollowsFigure(g: Grid, bits: seq<bool>, mask: nat)
    requires IsGrid(g) && mask < 8
  {
    forall r, c | InSymbol(r, c) && c != 6 && !IsFunction(c, r) ::
      DiffersFromBit(g, bits, r, c) <==> Inverts(mask, r, c)
  }

  predicate DiffersFromBit(g: Grid, bits: seq<bool>, row: int, column: int)
    requires |g| == SIZE && (forall r | 0 <= r < SIZE :: |g[r]| == SIZE) && InSymbol(row, column) && column != 6
  {
    CellOfStepOf(row, column);
    g[row][column] != Stream(bits, Rank(StepOf(row, column)))
  }

  lemma {:induction false} SymbolFollowsFigure(bits: seq<bool>, format: seq<bool>, mask: nat)
    requires |format| == 15 && mask < 8
    ensures FollowsFigure(Symbol(bits, format, mask), bits, mask)
  {
    hide Rank, StepOf, Masked, Inverts, Stream, IsFunction, IsFormat;
    var g := Symbol(bits, format, mask);
    forall r, c | InSymbol(r, c) && c != 6 && !IsFunction(c, r)
      ensures DiffersFromBit(g, bits, r, c) <==> Inverts(mask, r, c)
    {
      CellOfStepOf(r, c);
      DataIsNotFormat(r, c);
      MaskedAsInFigures(mask, r, c);
    }
  }

  // ----- Drawing the data ---------------------------------------------------------------------

  /** The data modules visited before a step are drawn; all other modules are as in the base. */
  ghost predicate DrawnUpTo(modules: array2<bool>, base: array2<bool>, bits: seq<bool>, mask: nat, step: int)
    requires IsMatrix(modules) && IsMatrix(base)
    reads modules, base
  {
    forall r, c | InSymbol(r, c) ::
      modules[r, c] == if c != 6 && !IsFunction(c, r) && StepOf(r, c) < step then DataModule(bits, mask, r, c)
                       else base[r, c]
  }

  /** No two modules are visited at the same step. */
  lemma {:induction false} OneModulePerStep(step: int)
    ensures forall r, c | InSymbol(r, c) && c != 6 :: StepOf(r, c) == step ==> (r, c) == Cell(step)
  {
    forall r, c | InSymbol(r, c) && c != 6
      ensures StepOf(r, c) == step ==> (r, c) == Cell(step)
    {
      CellOfStepOf(r, c);
    }
  }

  lemma {:induction false} SkipModule(modules: array2<bool>, base: array2<bool>, bits: seq<bool>, mask: nat, step: nat)
    requires IsMatrix(modules) && IsMatrix(base)
    requires step < STEPS && !IsData(step)
    requires DrawnUpTo(modules, base, bits, mask, step)
    ensures DrawnUpTo(modules, base, bits, mask, step + 1)
  {
    OneModulePerStep(step);
    StepOfCell(step);
  }

  /** One module of the walk: function modules are skipped, data modules take the next bit. */
  method DrawModule(modules: array2<bool>, base: array2<bool>, function_: array2<bool>, bits: seq<bool>, mask: nat,
                    ghost step: nat, bitIndex: nat, row: int, column: int) returns (nextIndex: nat)
    requires IsMatrix(modules) && IsMatrix(base) && IsMatrix(function_) && modules != base && modules != function_
    requires forall r, c | InSymbol(r, c) :: function_[r, c] == IsFunction(c, r)
    requires step < STEPS && Cell(step) == (row, column) && bitIndex == Rank(step)
    requires DrawnUpTo(modules, base, bits, mask, step)
    modifies modules
    ensures nextIndex == Rank(step + 1)
    ensures DrawnUpTo(modules, base, bits, mask, step + 1)
  {
    StepOfCell(step);
    if function_[row, column] {
      SkipModule(modules, base, bits, mask, step);
      return bitIndex;
    }
    var bit := bitIndex < |bits| && bits[bitIndex];
    nextIndex := bitIndex + 1;
    modules[row, column] := bit != Masked(mask, row, column);
    OneModulePerStep(step);
  }

  /** The two modules of a row, right one first. */
  method DrawRow(modules: array2<bool>, base: array2<bool>, function_: array2<bool>, bits: seq<bool>, mask: nat,
                 ghost step: nat, bitIndex: nat, row: int, column: int) returns (nextIndex: nat)
    requires IsMatrix(modules) && IsMatrix(base) && IsMatrix(function_) && modules != base && modules != function_
    requires forall r, c | InSymbol(r, c) :: function_[r, c] == IsFunction(c, r)
    requires step + 1 < STEPS && Cell(step) == (row, column) && Cell(step + 1) == (row, column - 1)
    requires bitIndex == Rank(step)
    requires DrawnUpTo(modules, base, bits, mask, step)
    modifies modules
    ensures nextIndex == Rank(step + 2)
    ensures DrawnUpTo(modules, base, bits, mask, step + 2)
  {
    nextIndex := DrawModule(modules, base, function_, bits, mask, step, bitIndex, row, column);
    nextIndex := DrawModule(modules, base, function_, bits, mask, step + 1, nextIndex, row, column - 1);
  }

  /** A pair of columns, from one end to the other. */
  method DrawPair(modules: array2<bool>, base: array2<bool>, function_: array2<bool>, bits: seq<bool>, mask: nat,
                  ghost pair: nat, bitIndex: nat, row: int, direction: int, column: int) returns (nextIndex: nat)
    requires IsMatrix(modules) && IsMatrix(base) && IsMatrix(function_) && modules != base && modules != function_
    requires forall r, c | InSymbol(r, c) :: function_[r, c] == IsFunction(c, r)
    requires pair < PAIRS && column == RightColumn(pair)
    requires row == RowAt(pair, 0) && direction == if pair % 2 == 0 then -1 else 1
    requires bitIndex == Rank(Step(pair, 0, 0))
    requires DrawnUpTo(modules, base, bits, mask, Step(pair, 0, 0))
    modifies modules
    ensures nextIndex == Rank(Step(pair + 1, 0, 0))
    ensures DrawnUpTo(modules, base, bits, mask, Step(pair + 1, 0, 0))
  {
    nextIndex := bitIndex;
    hide Rank, DrawnUpTo;
    ghost var step := Step(pair, 0, 0);
    for offset := 0 to SIZE
      invariant step == Step(pair, offset, 0)
      invariant nextIndex == Rank(step)
      invariant DrawnUpTo(modules, base, bits, mask, step)
    {
      StepsOfRow(pair, offset);
      nextIndex := DrawRow(modules, base, function_, bits, mask, step, nextIndex, row + direction * offset, column);
      step := step + 2;
    }
    assert step == Step(pair + 1, 0, 0);
  }

  /** Writes the format bits, in order, at one copy's coordinates. */
  method DrawCopy(modules: array2<bool>, coordinates: seq<(int, int)>, format: seq<bool>)
    requires IsMatrix(modules) && |format| == |coordinates| == 15
    requires forall i | 0 <= i < 15 :: InSymbol(coordinates[i].1, coordinates[i].0)
    requires forall i | 0 <= i < 15 :: FormatIndex(coordinates[i].0, coordinates[i].1) == i
    modifies modules
    ensures forall r, c | InSymbol(r, c) ::
              modules[r, c] == if (c, r) in coordinates then FormatAt(format, c, r) else old(modules[r, c])
  {
    for index := 0 to 15
      invariant forall r, c | InSymbol(r, c) ::
        modules[r, c] == if (c, r) in coordinates[..index] then FormatAt(format, c, r) else old(modules[r, c])
    {
      assert coordinates[..index + 1] == coordinates[..index] + [coordinates[index]];
      var (x, y) := coordinates[index];
      modules[y, x] := format[index];
    }
    assert coordinates[..15] == coordinates;
  }

  method DrawFormat(modules: array2<bool>, format: seq<bool>)
    requires IsMatrix(modules) && |format| == 15
    modifies modules
    ensures forall r, c | InSymbol(r, c) ::
              modules[r, c] == if IsFormat(c, r) then FormatAt(format, c, r) else old(modules[r, c])
  {
    var first, second := FormatCoordinates();
    FormatIndexInverse(0, 0);
    DrawCopy(modules, first, format);
    DrawCopy(modules, second, format);
    forall r, c | InSymbol(r, c)
      ensures IsFormat(c, r) <==> (c, r) in first || (c, r) in second
    {
      ListedIsFormat(first, second, c, r);
    }
  }

  predicate FormatAt(format: seq<bool>, x: int, y: int)
    requires |format| == 15
  {
    FormatIndexInverse(x, y);
    IsFormat(x, y) && format[FormatIndex(x, y)]
  }

  /** The symbol of a codeword block under one mask: copy the base, walk the column pairs from
      the right, then draw both copies of the format bits. */
  method DrawData(base: array2<bool>, function_: array2<bool>, codewords: seq<bv8>, mask: nat)
    returns (modules: array2<bool>, ghost format: bv16)
    requires IsMatrix(base) && IsMatrix(function_) && mask < 8
    requires forall r, c | InSymbol(r, c) :: base[r, c] == IsDark(c, r)
    requires forall r, c | InSymbol(r, c) :: function_[r, c] == IsFunction(c, r)
    ensures fresh(modules) && IsMatrix(modules)
    ensures format < 0x8000 && F.IsFormatWord(F.Xor(format, F.FORMAT_MASK), F.FormatValue(mask))
    ensures Snapshot(modules) == Symbol(D.Bits(codewords), F.LowBits(format, 15), mask)
    ensures FollowsFigure(Snapshot(modules), D.Bits(codewords), mask)
  {
    hide FollowsFigure, DataModule, IsDark, IsFunction, StepOf, FormatAt, D.Bits, Symbol, Snapshot, F.LowBits, F.IsFormatWord;
    var bits := D.Bits(codewords);
    modules := Copy(base);
    NothingDrawn(modules, base, bits, mask);
    WalkPairs(modules, base, function_, bits, mask);
    F.MaskOfFormatValue(mask);
    var word := F.BchFormat(F.FormatValue(mask));
    format := word;
    DrawFormat(modules, F.LowBits(word, 15));
    SymbolIsDrawn(modules, bits, F.LowBits(word, 15), mask);
    SymbolFollowsFigure(bits, F.LowBits(word, 15), mask);
  }

  lemma {:induction false} NothingDrawn(modules: array2<bool>, base: array2<bool>, bits: seq<bool>, mask: nat)
    requires IsMatrix(modules) && IsMatrix(base)
    requires forall r, c | InSymbol(r, c) :: modules[r, c] == base[r, c]
    ensures DrawnUpTo(modules, base, bits, mask, 0)
  {
    hide DataModule, IsFunction;
    forall r, c | InSymbol(r, c) && c != 6
      ensures StepOf(r, c) >= 0
    {
      CellOfStepOf(r, c);
    }
  }

  method Copy(base: array2<bool>) returns (modules: array2<bool>)
    requires IsMatrix(base)
    ensures fresh(modules) && IsMatrix(modules)
    ensures forall r, c | InSymbol(r, c) :: modules[r, c] == base[r, c]
  {
    modules := new bool[SIZE, SIZE]((r, c) requires InSymbol(r, c) && IsMatrix(base) reads base => base[r, c]);
  }

  method WalkPairs(modules: array2<bool>, base: array2<bool>, function_: array2<bool>, bits: seq<bool>, mask: nat)
    requires IsMatrix(modules) && IsMatrix(base) && IsMatrix(function_) && modules != base && modules != function_
    requires forall r, c | InSymbol(r, c) :: function_[r, c] == IsFunction(c, r)
    requires DrawnUpTo(modules, base, bits, mask, 0)
    modifies modules
    ensures DrawnUpTo(modules, base, bits, mask, STEPS)
  {
    hide Rank, DrawnUpTo;
    var bitIndex := 0;
    var row := SIZE - 1;
    var direction := -1;
    var column := SIZE - 1;
    ghost var pair := 0;
    RankOfPair(0);
    while column > 0
      invariant 0 <= pair <= PAIRS
      invariant column == if pair <= 15 then SIZE - 1 - 2 * pair else SIZE - 2 - 2 * pair
      invariant row == RowAt(pair, 0) && direction == if pair % 2 == 0 then -1 else 1
      invariant bitIndex == Rank(Step(pair, 0, 0))
      invariant DrawnUpTo(modules, base, bits, mask, Step(pair, 0, 0))
      decreases column
    {
      if column == 6 {
        column := column - 1;
      }
      bitIndex := DrawPair(modules, base, function_, bits, mask, pair, bitIndex, row, direction, column);
      row := row + direction * (SIZE - 1);
      direction := -direction;
      column := column - 2;
      pair := pair + 1;
    }
    assert Step(pair, 0, 0) == STEPS;
  }

  lemma {:induction false} SymbolIsDrawn(modules: array2<bool>, bits: seq<bool>, format: seq<bool>, mask: nat)
    requires IsMatrix(modules) && |format| == 15
    requires forall r, c | InSymbol(r, c) ::
               modules[r, c] == if IsFormat(c, r) then FormatAt(format, c, r)
                                else if c != 6 && !IsFunction(c, r) && StepOf(r, c) < STEPS then DataModule(bits, mask, r, c)
                                else IsDark(c, r)
    ensures Snapshot(modules) == Symbol(bits, format, mask)
  {
    hide DataModule;
    forall r, c | InSymbol(r, c)
      ensures modules[r, c] == Module(bits, format, mask, r, c)
    {
      if c != 6 {
        CellOfStepOf(r, c);
      } else {
        TimingColumnIsFunction(r);
      }
    }
    var g, h := Snapshot(modules), Symbol(bits, format, mask);
    forall r | 0 <= r < SIZE
      ensures g[r] == h[r]
    {
      assert forall c | 0 <= c < SIZE :: g[r][c] == h[r][c];
    }
  }

  // ----- Reading a symbol back -----------------------------------------------------------------

  /** The bits of the data modules visited in the first steps; those marked in the mask's figure are
      inverted back. */
  function ReadBits(g: Grid, mask: nat, steps: nat): (bits: seq<bool>)
    requires |g| == SIZE && (forall r | 0 <= r < SIZE :: |g[r]| == SIZE) && mask < 8 && steps <= STEPS
    ensures |bits| == Rank(steps)
  {
    if steps == 0 then []
    else
      StepOfCell(steps - 1);
      var (row, column) := Cell(steps - 1);
      ReadBits(g, mask, steps - 1) +
      if IsData(steps - 1) then [g[row][column] != Inverts(mask, row, column)] else []
  }

  /** Reads the payload of a symbol: mask from the format bits, zigzag, unmask, first 108 codewords. */
  function ReadSymbol(g: Grid): Option<seq<bv8>>
    requires |g| == SIZE && (forall r | 0 <= r < SIZE :: |g[r]| == SIZE)
  {
    var format := seq(15, i requires 0 <= i < 15 => g[FirstCoordinate(i).1][FirstCoordinate(i).0]);
    match F.ReadFormat(format)
    case None => None
    case Some(mask) =>
      DataModules();
      D.ReadPayload(D.Pack(ReadBits(g, mask, STEPS)[..8 * D.DATA_CODEWORDS]))
  }

  /** A data module that is read gives its bit back. */
  lemma {:induction false} ReadBit(bits: seq<bool>, format: seq<bool>, mask: nat, step: nat)
    requires |format| == 15 && mask < 8 && step < STEPS && IsData(step)
    ensures InSymbol(Cell(step).0, Cell(step).1)
    ensures (Symbol(bits, format, mask)[Cell(step).0][Cell(step).1] != Inverts(mask, Cell(step).0, Cell(step).1))
            == Stream(bits, Rank(step))
  {
    hide Masked, Inverts, Rank, Cell, StepOf, Stream;
    StepOfCell(step);
    var (row, column) := Cell(step);
    DataIsNotFormat(row, column);
    MaskedAsInFigures(mask, row, column);
    assert Symbol(bits, format, mask)[row][column] == DataModule(bits, mask, row, column);
  }

  /** Reading undoes drawing: the data modules give back the bit stream, in order. */
  lemma {:induction false} ReadBitsOfSymbol(bits: seq<bool>, format: seq<bool>, mask: nat, steps: nat)
    requires |format| == 15 && mask < 8 && steps <= STEPS
    ensures var read := ReadBits(Symbol(bits, format, mask), mask, steps);
            forall i | 0 <= i < |read| :: read[i] == Stream(bits, i)
  {
    hide Inverts, Cell, IsData, Stream, Symbol;
    if steps > 0 {
      ReadBitsOfSymbol(bits, format, mask, steps - 1);
      StepOfCell(steps - 1);
      if IsData(steps - 1) {
        ReadBit(bits, format, mask, steps - 1);
      }
    }
  }

  lemma {:induction false} DataIsNotFormat(row: int, column: int)
    requires InSymbol(row, column) && !IsFunction(column, row)
    ensures !IsFormat(column, row)
  {
    FormatIsLight(column, row);
  }

  // ----- End to end ---------------------------------------------------------------------------------

  /** A symbol of a payload under a mask: data block, error correction, format word and modules. */
  ghost predicate IsSymbolOf(g: Grid, payload: seq<bv8>, mask: nat, words: seq<bv8>, ecc: seq<bv8>, format: bv16) {
    && mask < 8
    && D.IsDataBlock(words, payload)
    && |ecc| == RS.ECC_CODEWORDS && RS.IsCodeword(words + ecc)
    && format < 0x8000 && F.IsFormatWord(F.Xor(format, F.FORMAT_MASK), F.FormatValue(mask))
    && g == Symbol(D.Bits(words + ecc), F.LowBits(format, 15), mask)
  }

  ghost predicate IsQrCode(g: Grid, payload: seq<bv8>, mask: nat) {
    exists words, ecc, format :: IsSymbolOf(g, payload, mask, words, ecc, format)
  }

  lemma {:induction false} FormatCopyIsRead(bits: seq<bool>, format: seq<bool>, mask: nat)
    requires |format| == 15
    ensures var g := Symbol(bits, format, mask);
            && (forall i | 0 <= i < 15 :: g[FirstCoordinate(i).1][FirstCoordinate(i).0] == format[i])
            && (forall i | 0 <= i < 15 :: g[SecondCoordinate(i).1][SecondCoordinate(i).0] == format[i])
  {
    hide DataModule, IsDark, IsFunction;
    FormatIndexInverse(0, 0);
  }

  /** All 134 codewords land and are read back: every one of the 1072 bits has its module. */
  lemma {:induction false} CodewordsAreRead(codewords: seq<bv8>, format: seq<bool>, mask: nat)
    requires |format| == 15 && mask < 8 && |codewords| == 134
    ensures var g := Symbol(D.Bits(codewords), format, mask);
            Rank(STEPS) >= 8 * 134 && D.Pack(ReadBits(g, mask, STEPS)[..8 * 134]) == codewords
  {
    hide Symbol, D.Bits, Rank;
    DataModules();
    ReadBitsOfSymbol(D.Bits(codewords), format, mask, STEPS);
    assert ReadBits(Symbol(D.Bits(codewords), format, mask), mask, STEPS)[..8 * 134] == D.Bits(codewords);
    D.PackOfBits(codewords);
  }

  /** The first 108 codewords of a symbol, as read. */
  lemma {:induction false} DataWordsAreRead(words: seq<bv8>, ecc: seq<bv8>, format: seq<bool>, mask: nat)
    requires |format| == 15 && mask < 8 && |words| == D.DATA_CODEWORDS
    ensures var g := Symbol(D.Bits(words + ecc), format, mask);
            Rank(STEPS) >= 8 * D.DATA_CODEWORDS
            && ReadBits(g, mask, STEPS)[..8 * D.DATA_CODEWORDS] == D.Bits(words)
  {
    hide Symbol, D.Bits, Rank;
    DataModules();
    ReadBitsOfSymbol(D.Bits(words + ecc), format, mask, STEPS);
    D.BitsOfConcat(words, ecc);
  }

  /** The end-to-end round trip: reading any symbol of a payload returns the payload. */
  lemma {:induction false} SymbolRoundTrip(g: Grid, payload: seq<bv8>, mask: nat)
    requires IsQrCode(g, payload, mask)
    ensures ReadSymbol(g) == Some(payload)
  {
    hide ReadBits, Rank, D.Bits, D.Pack, D.ReadPayload, F.LowBits, F.ReadFormat, F.IsFormatWord;
    var words, ecc, format :| IsSymbolOf(g, payload, mask, words, ecc, format);
    var drawn := F.LowBits(format, 15);
    FormatCopyIsRead(D.Bits(words + ecc), drawn, mask);
    assert seq(15, i requires 0 <= i < 15 => g[FirstCoordinate(i).1][FirstCoordinate(i).0]) == drawn;
    F.FormatRoundTrip(format, mask);
    DataWordsAreRead(words, ecc, drawn, mask);
    D.PackOfBits(words);
    D.PayloadRoundTrip(words, payload);
  }

  /** A payload and a mask determine the symbol. */
  lemma {:induction false} SymbolIsUnique(g: Grid, h: Grid, payload: seq<bv8>, mask: nat)
    requires IsQrCode(g, payload, mask) && IsQrCode(h, payload, mask)
    ensures g == h
  {
    hide D.IsDataBlock, D.Bits, Symbol, RS.IsCodeword, F.IsFormatWord, F.LowBits;
    var words, ecc, format :| IsSymbolOf(g, payload, mask, words, ecc, format);
    var words', ecc', format' :| IsSymbolOf(h, payload, mask, words', ecc', format');
    D.DataBlockIsUnique(words, words', payload);
    RS.EccIsUnique(words, ecc, ecc');
    var value := F.FormatValue(mask);
    F.FormatWordsAreFarApart(F.Xor(format, F.FORMAT_MASK), F.Xor(format', F.FORMAT_MASK), value, value);
    F.XorCancels(format, format', F.FORMAT_MASK);
  }

  lemma {:induction false} OnlySymbol(g: Grid, payload: seq<bv8>, mask: nat)
    requires IsQrCode(g, payload, mask)
    ensures forall h | IsQrCode(h, payload, mask) :: h == g
  {
    forall h | IsQrCode(h, payload, mask)
      ensures h == g
    {
      SymbolIsUnique(g, h, payload, mask);
    }
  }

  /** The symbol's data modules are the bits of a data block and its error correction, inverted where
      the mask's figure is marked. */
  ghost predicate CarriesByFigure(g: Grid, payload: seq<bv8>, mask: nat) {
    exists words, ecc ::
      && IsGrid(g) && mask < 8 && D.IsDataBlock(words, payload)
      && |ecc| == 26 && RS.IsCodeword(words + ecc)
      && FollowsFigure(g, D.Bits(words + ecc), mask)
  }

  lemma {:induction false} QrCodeFollowsFigure(g: Grid, payload: seq<bv8>, mask: nat)
    requires IsQrCode(g, payload, mask)
    ensures CarriesByFigure(g, payload, mask)
  {
    hide D.IsDataBlock, D.Bits, Symbol, RS.IsCodeword, F.IsFormatWord, F.LowBits, FollowsFigure;
    var words, ecc, format :| IsSymbolOf(g, payload, mask, words, ecc, format);
    SymbolFollowsFigure(D.Bits(words + ecc), F.LowBits(format, 15), mask);
  }

  /** The matrix of a payload: the candidate with the smallest penalty among the eight masks,
      the lowest mask on a tie.  None stands for the raised "too long" error. */
  method Matrix(payload: seq<bv8>, penalty: Grid -> int) returns (r: Option<Grid>, ghost mask: nat)
    ensures r.None? <==> |payload| > D.MAX_PAYLOAD
    ensures r.Some? ==> IsQrCode(r.value, payload, mask)
    ensures r.Some? ==> IsGrid(r.value) && ReadSymbol(r.value) == Some(payload)
    ensures r.Some? ==> CarriesByFigure(r.value, payload, mask)
    ensures r.Some? ==> forall m: nat, g | IsQrCode(g, payload, m) ::
              penalty(r.value) < penalty(g) || (penalty(r.value) == penalty(g) && mask <= m)
  {
    hide CarriesByFigure, FollowsFigure, D.IsDataBlock, D.Bits, Symbol, Snapshot, ReadSymbol, RS.IsCodeword, F.IsFormatWord, F.LowBits, IsDark, IsFunction;
    var base, function_ := BaseMatrix();
    var data := D.DataCodewords(payload);
    if data.None? {
      return None, 0;
    }
    var ecc := RS.Ecc(data.value);
    var codewords := data.value + ecc;
    var modules, format := DrawData(base, function_, codewords, 0);
    var best := Snapshot(modules);
    assert IsSymbolOf(best, payload, 0, data.value, ecc, format);
    OnlySymbol(best, payload, 0);
    mask := 0;
    for candidate := 1 to 8
      invariant forall r, c | InSymbol(r, c) :: base[r, c] == IsDark(c, r)
      invariant forall r, c | InSymbol(r, c) :: function_[r, c] == IsFunction(c, r)
      invariant mask < candidate && IsGrid(best) && IsQrCode(best, payload, mask)
      invariant forall m: nat, g | m < candidate && IsQrCode(g, payload, m) ::
                  penalty(best) < penalty(g) || (penalty(best) == penalty(g) && mask <= m)
    {
      modules, format := DrawData(base, function_, codewords, candidate);
      var drawn := Snapshot(modules);
      assert IsSymbolOf(drawn, payload, candidate, data.value, ecc, format);
      OnlySymbol(drawn, payload, candidate);
      if penalty(drawn) < penalty(best) {
        best, mask := drawn, candidate;
      }
    }
    SymbolRoundTrip(best, payload, mask);
    QrCodeFollowsFigure(best, payload, mask);
    return Some(best), mask;
  }
}
