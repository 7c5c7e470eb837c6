/** The eight data masks, as conditions and as figures.

    The encoder computes a condition for every module.  The figures are written out independently,
    and the two agree everywhere, so the conditions invert the modules that a reader expects.
 */
module QrMask {

  /** The eight mask conditions of section 7.8.2 of ISO/IEC 18004. */
  predicate Masked(mask: nat, row: nat, column: nat) {
    if mask == 0 then (row + column) % 2 == 0
    else if mask == 1 then row % 2 == 0
    else if mask == 2 then column % 3 == 0
    else if mask == 3 then (row + column) % 3 == 0
    else if mask == 4 then (row / 2 + column / 3) % 2 == 0
    else if mask == 5 then (row * column) % 2 + (row * column) % 3 == 0
    else if mask == 6 then ((row * column) % 2 + (row * column) % 3) % 2 == 0
    else ((row * column) % 3 + (row + column) % 2) % 2 == 0
  }

  /** The mask figures of section 7.8 of ISO/IEC 18004, row by row: each row repeats its pattern from
      the left edge, and # marks the modules to invert. */
  function Pattern(mask: nat, row: nat): (line: string)
    requires mask < 8
    ensures |line| == if mask == 0 then 2 else if mask == 1 then 1 else if mask <= 3 then 3 else 6
  {
    match mask
    case 0 => if row % 2 == 0 then "#." else ".#"
    case 1 => if row % 2 == 0 then "#" else "."
    case 2 => "#.."
    case 3 => if row % 3 == 0 then "#.." else if row % 3 == 1 then "..#" else ".#."
    case 4 => if row % 4 < 2 then "###..." else "...###"
    case 5 => Pattern5(row % 6)
    case 6 => Pattern6(row % 6)
    case 7 => Pattern7(row % 6)
  }

  function Pattern5(i: nat): (line: string)
    requires i < 6
    ensures |line| == 6
  {
    match i
    case 0 => "######"
    case 1 => "#....."
    case 2 => "#..#.."
    case 3 => "#.#.#."
    case 4 => "#..#.."
    case 5 => "#....."
  }

  function Pattern6(i: nat): (line: string)
    requires i < 6
    ensures |line| == 6
  {
    match i
    case 0 => "######"
    case 1 => "###..."
    case 2 => "##.##."
    case 3 => "#.#.#."
    case 4 => "#.##.#"
    case 5 => "#...##"
  }

  function Pattern7(i: nat): (line: string)
    requires i < 6
    ensures |line| == 6
  {
    match i
    case 0 => "#.#.#."
    case 1 => "...###"
    case 2 => "#...##"
    case 3 => ".#.#.#"
    case 4 => "###..."
    case 5 => ".###.."
  }

  predicate Inverts(mask: nat, row: nat, column: nat)
    requires mask < 8
  {
    var line := Pattern(mask, row);
    line[column % |line|] == '#'
  }

  lemma {:induction false} SameParity(x: int, y: int, q: int)
    requires x == y + 2 * q
    ensures x % 2 == y % 2
  {
  }

  lemma {:induction false} SameThird(x: int, y: int, q: int)
    requires x == y + 3 * q
    ensures x % 3 == y % 3
  {
  }

  /** The product's remainders depend on the factors' remainders by 6 only. */
  lemma {:induction false} ProductRemainders(row: nat, column: nat)
    ensures (row * column) % 2 == (row % 6 * (column % 6)) % 2
    ensures (row * column) % 3 == (row % 6 * (column % 6)) % 3
    ensures (row + column) % 2 == (row % 6 + column % 6) % 2
  {
    RemaindersOf(row / 6, row % 6, column / 6, column % 6, row, column);
  }

  lemma {:induction false} RemaindersOf(a: nat, i: nat, b: nat, j: nat, row: nat, column: nat)
    requires row == 6 * a + i && column == 6 * b + j
    ensures (row * column) % 2 == (i * j) % 2 && (row * column) % 3 == (i * j) % 3 && (row + column) % 2 == (i + j) % 2
  {
    var q := 6 * (a * b) + a * j + i * b;
    Product(a, i, b, j);
    SameParity(row * column, i * j, 3 * q);
    SameThird(row * column, i * j, 2 * q);
    SameParity(row + column, i + j, 3 * (a + b));
  }

  lemma {:induction false} Product(a: int, i: int, b: int, j: int)
    ensures (6 * a + i) * (6 * b + j) == i * j + 6 * (6 * (a * b) + a * j + i * b)
  {
    calc {
      (6 * a + i) * (6 * b + j);
    ==
      (6 * a) * (6 * b + j) + i * (6 * b + j);
    ==
      (6 * a) * (6 * b) + (6 * a) * j + i * (6 * b) + i * j;
    }
  }

  lemma {:induction false} SmallProduct(i: nat, j: nat)
    requires i < 6
    ensures i * j == if i == 0 then 0 else if i == 1 then j else if i == 2 then 2 * j else if i == 3 then 3 * j
                     else if i == 4 then 4 * j else 5 * j
  {
    if i == 0 {
    } else if i == 1 {
    } else if i == 2 {
    } else if i == 3 {
    } else if i == 4 {
    } else {
    }
  }

  lemma {:induction false} FigureOfRemainders(i: nat, j: nat)
    requires i < 6 && j < 6
    ensures Pattern5(i)[j] == '#' <==> (i * j) % 2 + (i * j) % 3 == 0
    ensures Pattern6(i)[j] == '#' <==> ((i * j) % 2 + (i * j) % 3) % 2 == 0
    ensures Pattern7(i)[j] == '#' <==> ((i * j) % 3 + (i + j) % 2) % 2 == 0
  {
    Figure5(i, j);
    Figure6(i, j);
    Figure7(i, j);
  }

  lemma {:induction false} Figure5(i: nat, j: nat)
    requires i < 6 && j < 6
    ensures Pattern5(i)[j] == '#' <==> (i * j) % 2 + (i * j) % 3 == 0
  {
    SmallProduct(i, j);
  }

  lemma {:induction false} Figure6(i: nat, j: nat)
    requires i < 6 && j < 6
    ensures Pattern6(i)[j] == '#' <==> ((i * j) % 2 + (i * j) % 3) % 2 == 0
  {
    SmallProduct(i, j);
  }

  lemma {:induction false} Figure7(i: nat, j: nat)
    requires i < 6 && j < 6
    ensures Pattern7(i)[j] == '#' <==> ((i * j) % 3 + (i + j) % 2) % 2 == 0
  {
    SmallProduct(i, j);
  }

  /** The mask conditions invert exactly the marked modules of the figures. */
  lemma {:induction false} MaskedAsInFigures(mask: nat, row: nat, column: nat)
    requires mask < 8
    ensures Masked(mask, row, column) <==> Inverts(mask, row, column)
  {
    hide Masked, Inverts;
    if mask == 0 || mask == 3 {
      Diagonals(mask, row, column);
    } else if mask < 3 {
      Stripes(mask, row, column);
    } else if mask == 4 {
      Blocks(row, column);
    } else {
      Products(mask, row, column);
    }
  }

  lemma {:induction false} Diagonals(mask: nat, row: nat, column: nat)
    requires mask == 0 || mask == 3
    ensures Masked(mask, row, column) <==> Inverts(mask, row, column)
  {
    hide Pattern5, Pattern6, Pattern7;
    BlockSum(row, column);
    SameThird(row + column, row % 3 + column % 3, row / 3 + column / 3);
  }

  lemma {:induction false} Stripes(mask: nat, row: nat, column: nat)
    requires mask == 1 || mask == 2
    ensures Masked(mask, row, column) <==> Inverts(mask, row, column)
  {
    hide Pattern5, Pattern6, Pattern7;
  }

  lemma {:induction false} Blocks(row: nat, column: nat)
    ensures Masked(4, row, column) <==> Inverts(4, row, column)
  {
    hide Pattern5, Pattern6, Pattern7;
    BlockRow(row / 4, row % 4, row);
    BlockColumn(column / 6, column % 6, column);
    BlockSum(row / 2, column / 3);
  }

  lemma {:induction false} BlockRow(a: nat, i: nat, row: nat)
    requires row == 4 * a + i && i < 4
    ensures (row / 2) % 2 == if i < 2 then 0 else 1
  {
    assert row / 2 == 2 * a + if i < 2 then 0 else 1;
    SameParity(row / 2, if i < 2 then 0 else 1, a);
  }

  lemma {:induction false} BlockColumn(b: nat, j: nat, column: nat)
    requires column == 6 * b + j && j < 6
    ensures (column / 3) % 2 == if j < 3 then 0 else 1
  {
    assert column / 3 == 2 * b + if j < 3 then 0 else 1;
    SameParity(column / 3, if j < 3 then 0 else 1, b);
  }

  lemma {:induction false} BlockSum(x: nat, y: nat)
    ensures (x + y) % 2 == 0 <==> x % 2 == y % 2
  {
  }

  lemma {:induction false} Products(mask: nat, row: nat, column: nat)
    requires 5 <= mask < 8
    ensures Masked(mask, row, column) <==> Inverts(mask, row, column)
  {
    hide Pattern5, Pattern6, Pattern7;
    ProductRemainders(row, column);
    FigureOfRemainders(row % 6, column % 6);
  }
}
