/** The fixed patterns, painted module by module into two matrices. */
module QrBase {
  import opened QrLayout

  ghost predicate IsMatrix(m: array2<bool>) {
    m.Length0 == SIZE && m.Length1 == SIZE
  }

  /** Marks one module as part of a fixed pattern; coordinates outside the symbol are ignored. */
  method SetFunction(modules: array2<bool>, function_: array2<bool>, x: int, y: int, dark: bool)
    requires IsMatrix(modules) && IsMatrix(function_) && modules != function_
    modifies modules, function_
    ensures forall r, c | InSymbol(r, c) :: modules[r, c] == if r == y && c == x then dark else old(modules[r, c])
    ensures forall r, c | InSymbol(r, c) :: function_[r, c] == ((r == y && c == x) || old(function_[r, c]))
  {
    if 0 <= x < SIZE && 0 <= y < SIZE {
      modules[y, x] := dark;
      function_[y, x] := true;
    }
  }

  /** The encoder's test for a dark finder module, relative to the finder's corner. */
  predicate FinderDark(dx: int, dy: int) {
    0 <= dx <= 6 && 0 <= dy <= 6 && (dx in {0, 6} || dy in {0, 6} || (2 <= dx <= 4 && 2 <= dy <= 4))
  }

  lemma {:induction false} FinderDarkIsRing(x: int, y: int, left: int, top: int)
    ensures -1 <= x - left <= 7 && -1 <= y - top <= 7 <==> Ring(x, y, left + 3, top + 3) <= 4
    ensures FinderDark(x - left, y - top) <==> Ring(x, y, left + 3, top + 3) in {0, 1, 3}
  {
  }

  /** A finder pattern with its separator, clipped to the symbol. */
  method Finder(modules: array2<bool>, function_: array2<bool>, left: int, top: int)
    requires IsMatrix(modules) && IsMatrix(function_) && modules != function_
    modifies modules, function_
    ensures forall r, c | InSymbol(r, c) :: modules[r, c] ==
              if Ring(c, r, left + 3, top + 3) <= 4 then Ring(c, r, left + 3, top + 3) in {0, 1, 3}
              else old(modules[r, c])
    ensures forall r, c | InSymbol(r, c) :: function_[r, c] ==
              (Ring(c, r, left + 3, top + 3) <= 4 || old(function_[r, c]))
  {
    for dy := -1 to 8
      invariant forall r, c | InSymbol(r, c) :: modules[r, c] ==
                  if -1 <= c - left <= 7 && -1 <= r - top < dy then FinderDark(c - left, r - top)
                  else old(modules[r, c])
      invariant forall r, c | InSymbol(r, c) :: function_[r, c] ==
                  ((-1 <= c - left <= 7 && -1 <= r - top < dy) || old(function_[r, c]))
    {
      FinderRow(modules, function_, left, top, dy);
    }
    forall r, c | InSymbol(r, c)
      ensures -1 <= c - left <= 7 && -1 <= r - top <= 7 <==> Ring(c, r, left + 3, top + 3) <= 4
      ensures FinderDark(c - left, r - top) <==> Ring(c, r, left + 3, top + 3) in {0, 1, 3}
    {
      FinderDarkIsRing(c, r, left, top);
    }
  }

  method FinderRow(modules: array2<bool>, function_: array2<bool>, left: int, top: int, dy: int)
    requires IsMatrix(modules) && IsMatrix(function_) && modules != function_
    modifies modules, function_
    ensures forall r, c | InSymbol(r, c) :: modules[r, c] ==
              if -1 <= c - left <= 7 && r - top == dy then FinderDark(c - left, dy) else old(modules[r, c])
    ensures forall r, c | InSymbol(r, c) :: function_[r, c] ==
              ((-1 <= c - left <= 7 && r - top == dy) || old(function_[r, c]))
  {
    for dx := -1 to 8
      invariant forall r, c | InSymbol(r, c) :: modules[r, c] ==
                  if -1 <= c - left < dx && r - top == dy then FinderDark(c - left, dy) else old(modules[r, c])
      invariant forall r, c | InSymbol(r, c) :: function_[r, c] ==
                  ((-1 <= c - left < dx && r - top == dy) || old(function_[r, c]))
    {
      SetFunction(modules, function_, left + dx, top + dy, FinderDark(dx, dy));
    }
  }

  /** The timing row and column, where no other pattern is. */
  method Timing(modules: array2<bool>, function_: array2<bool>)
    requires IsMatrix(modules) && IsMatrix(function_) && modules != function_
    modifies modules, function_
    ensures forall r, c | InSymbol(r, c) :: modules[r, c] ==
              if InTiming(c, r) && !old(function_[r, c]) then (c + r) % 2 == 0 else old(modules[r, c])
    ensures forall r, c | InSymbol(r, c) :: function_[r, c] == (InTiming(c, r) || old(function_[r, c]))
  {
    for index := 8 to SIZE - 8
      invariant forall r, c | InSymbol(r, c) :: modules[r, c] ==
                  if InTiming(c, r) && c < index && r < index && !old(function_[r, c]) then (c + r) % 2 == 0
                  else old(modules[r, c])
      invariant forall r, c | InSymbol(r, c) :: function_[r, c] ==
                  ((InTiming(c, r) && c < index && r < index) || old(function_[r, c]))
    {
      if !function_[6, index] {
        SetFunction(modules, function_, index, 6, index % 2 == 0);
      }
      if !function_[index, 6] {
        SetFunction(modules, function_, 6, index, index % 2 == 0);
      }
    }
  }

  method AlignmentRow(modules: array2<bool>, function_: array2<bool>, centerX: int, centerY: int, dy: int)
    requires IsMatrix(modules) && IsMatrix(function_) && modules != function_
    modifies modules, function_
    ensures forall r, c | InSymbol(r, c) :: modules[r, c] ==
              if -2 <= c - centerX <= 2 && r - centerY == dy then Max(Abs(c - centerX), Abs(dy)) != 1
              else old(modules[r, c])
    ensures forall r, c | InSymbol(r, c) :: function_[r, c] ==
              ((-2 <= c - centerX <= 2 && r - centerY == dy) || old(function_[r, c]))
  {
    for dx := -2 to 3
      invariant forall r, c | InSymbol(r, c) :: modules[r, c] ==
                  if -2 <= c - centerX < dx && r - centerY == dy then Max(Abs(c - centerX), Abs(dy)) != 1
                  else old(modules[r, c])
      invariant forall r, c | InSymbol(r, c) :: function_[r, c] ==
                  ((-2 <= c - centerX < dx && r - centerY == dy) || old(function_[r, c]))
    {
      SetFunction(modules, function_, centerX + dx, centerY + dy, Max(Abs(dx), Abs(dy)) != 1);
    }
  }

  /** An alignment pattern, unless its centre is already taken. */
  method Alignment(modules: array2<bool>, function_: array2<bool>, centerX: int, centerY: int)
    requires IsMatrix(modules) && IsMatrix(function_) && modules != function_
    requires InSymbol(centerY, centerX)
    modifies modules, function_
    ensures forall r, c | InSymbol(r, c) :: modules[r, c] ==
              if !old(function_[centerY, centerX]) && Ring(c, r, centerX, centerY) <= 2
              then Ring(c, r, centerX, centerY) in {0, 2}
              else old(modules[r, c])
    ensures forall r, c | InSymbol(r, c) :: function_[r, c] ==
              ((!old(function_[centerY, centerX]) && Ring(c, r, centerX, centerY) <= 2) || old(function_[r, c]))
  {
    if function_[centerY, centerX] {
      return;
    }
    for dy := -2 to 3
      invariant forall r, c | InSymbol(r, c) :: modules[r, c] ==
                  if -2 <= c - centerX <= 2 && -2 <= r - centerY < dy then Ring(c, r, centerX, centerY) != 1
                  else old(modules[r, c])
      invariant forall r, c | InSymbol(r, c) :: function_[r, c] ==
                  ((-2 <= c - centerX <= 2 && -2 <= r - centerY < dy) || old(function_[r, c]))
    {
      AlignmentRow(modules, function_, centerX, centerY, dy);
    }
  }

  /** The coordinate lists of the two copies of the format bits. */
  method FormatCoordinates() returns (first: seq<(int, int)>, second: seq<(int, int)>)
    ensures |first| == |second| == 15
    ensures forall i | 0 <= i < 15 :: first[i] == FirstCoordinate(i) && second[i] == SecondCoordinate(i)
  {
    first, second := [], [];
    for index := 0 to 15
      invariant |first| == |second| == index
      invariant forall i | 0 <= i < index :: first[i] == FirstCoordinate(i) && second[i] == SecondCoordinate(i)
    {
      if index < 6 {
        first := first + [(8, index)];
      } else if index < 8 {
        first := first + [(8, index + 1)];
      } else {
        first := first + [(8, SIZE - 15 + index)];
      }
      if index < 8 {
        second := second + [(SIZE - index - 1, 8)];
      } else if index < 9 {
        second := second + [(15 - index, 8)];
      } else {
        second := second + [(15 - index - 1, 8)];
      }
    }
  }

  /** Marks a list of modules as function modules, light for now. */
  method MarkLight(modules: array2<bool>, function_: array2<bool>, coordinates: seq<(int, int)>)
    requires IsMatrix(modules) && IsMatrix(function_) && modules != function_
    modifies modules, function_
    ensures forall r, c | InSymbol(r, c) :: modules[r, c] == ((c, r) !in coordinates && old(modules[r, c]))
    ensures forall r, c | InSymbol(r, c) :: function_[r, c] == ((c, r) in coordinates || old(function_[r, c]))
  {
    for i := 0 to |coordinates|
      invariant forall r, c | InSymbol(r, c) :: modules[r, c] == ((c, r) !in coordinates[..i] && old(modules[r, c]))
      invariant forall r, c | InSymbol(r, c) :: function_[r, c] == ((c, r) in coordinates[..i] || old(function_[r, c]))
    {
      assert coordinates[..i + 1] == coordinates[..i] + [coordinates[i]];
      SetFunction(modules, function_, coordinates[i].0, coordinates[i].1, false);
    }
    assert coordinates[..|coordinates|] == coordinates;
  }

  lemma {:induction false} ListedIsFormat(first: seq<(int, int)>, second: seq<(int, int)>, x: int, y: int)
    requires |first| == |second| == 15
    requires forall i | 0 <= i < 15 :: first[i] == FirstCoordinate(i) && second[i] == SecondCoordinate(i)
    ensures (x, y) in first + second <==> IsFormat(x, y)
  {
    FormatIndexInverse(x, y);
    var k := FormatIndex(x, y);
    if k >= 0 {
      assert first[k] == FirstCoordinate(k) && second[k] == SecondCoordinate(k);
    }
  }

  method Finders(modules: array2<bool>, function_: array2<bool>)
    requires IsMatrix(modules) && IsMatrix(function_) && modules != function_
    requires forall r, c | InSymbol(r, c) :: !modules[r, c] && !function_[r, c]
    modifies modules, function_
    ensures forall r, c | InSymbol(r, c) :: modules[r, c] == (InFinder(c, r) && IsDark(c, r))
    ensures forall r, c | InSymbol(r, c) :: function_[r, c] == InFinder(c, r)
  {
    Finder(modules, function_, 0, 0);
    Finder(modules, function_, SIZE - 7, 0);
    Finder(modules, function_, 0, SIZE - 7);
  }

  /** Everything but the format modules. */
  method Patterns(modules: array2<bool>, function_: array2<bool>)
    requires IsMatrix(modules) && IsMatrix(function_) && modules != function_
    requires forall r, c | InSymbol(r, c) :: !modules[r, c] && !function_[r, c]
    modifies modules, function_
    ensures forall r, c | InSymbol(r, c) :: modules[r, c] == IsDark(c, r)
    ensures forall r, c | InSymbol(r, c) :: function_[r, c] == (IsFunction(c, r) && !IsFormat(c, r))
  {
    Finders(modules, function_);
    Timing(modules, function_);
    Alignment(modules, function_, 6, 6);
    Alignment(modules, function_, 6, 30);
    Alignment(modules, function_, 30, 6);
    Alignment(modules, function_, 30, 30);
    SetFunction(modules, function_, 8, SIZE - 8, true);
    forall r, c | InSymbol(r, c)
      ensures modules[r, c] == IsDark(c, r) && function_[r, c] == (IsFunction(c, r) && !IsFormat(c, r))
    {
      FunctionModules(c, r);
      PatternsAreDisjoint(c, r);
    }
  }

  /** The fixed patterns of the symbol and the set of modules they occupy. */
  method BaseMatrix() returns (modules: array2<bool>, function_: array2<bool>)
    ensures fresh(modules) && fresh(function_) && modules != function_
    ensures IsMatrix(modules) && IsMatrix(function_)
    ensures forall r, c | InSymbol(r, c) :: modules[r, c] == IsDark(c, r)
    ensures forall r, c | InSymbol(r, c) :: function_[r, c] == IsFunction(c, r)
  {
    modules := new bool[SIZE, SIZE]((r, c) => false);
    function_ := new bool[SIZE, SIZE]((r, c) => false);
    Patterns(modules, function_);
    var first, second := FormatCoordinates();
    MarkLight(modules, function_, first + second);
    forall r, c | InSymbol(r, c)
      ensures modules[r, c] == IsDark(c, r) && function_[r, c] == IsFunction(c, r)
    {
      ListedIsFormat(first, second, c, r);
      FunctionModules(c, r);
      FormatIsLight(c, r);
    }
  }

  lemma {:induction false} FormatIsLight(x: int, y: int)
    requires InSymbol(y, x)
    ensures IsFormat(x, y) ==> IsFunction(x, y) && !IsDark(x, y)
  {
    PatternsAreDisjoint(x, y);
  }
}
