/**
 * Board generation (gamelogic.ts, generateBoardNumbers).
 *
 * Randomness is nondeterministic choice. Every `while (set.size < n) set.add(random)`
 * loop of the source becomes DrawDistinct, whose iterations each add one value
 * that is not yet in the set: a retry that draws a duplicate leaves the source's
 * set unchanged, so both reach the same results.
 */
module Generator {
  import opened Types

  /** No value occurs twice. */
  predicate Distinct<T(==)>(s: seq<T>)
  {
    forall i, j :: 0 <= i < j < |s| ==> s[i] != s[j]
  }

  /** Every value lies in [lo, hi]. */
  predicate AllIn(s: seq<int>, lo: int, hi: int)
  {
    forall i :: 0 <= i < |s| ==> lo <= s[i] <= hi
  }

  function Elements(s: seq<int>): set<int>
  {
    set x | x in s
  }

  function Interval(lo: int, hi: int): (r: set<int>)
    ensures forall v :: v in r <==> lo <= v <= hi
    decreases hi - lo
  {
    if hi < lo then {} else Interval(lo, hi - 1) + {hi}
  }

  lemma {:induction false} DistinctElements(s: seq<int>)
    requires Distinct(s)
    ensures |Elements(s)| == |s|
  {
    if |s| > 0 {
      var t := s[..|s| - 1];
      assert Distinct(t);
      DistinctElements(t);
      assert Elements(s) == Elements(t) + {s[|s| - 1]};
      assert s[|s| - 1] !in Elements(t);
    }
  }

  lemma {:induction false} IntervalSize(lo: int, hi: int)
    requires lo <= hi + 1
    ensures |Interval(lo, hi)| == hi - lo + 1
    decreases hi - lo + 1
  {
    if lo <= hi {
      IntervalSize(lo, hi - 1);
      assert hi !in Interval(lo, hi - 1);
    }
  }

  /** The values of [lo, hi] that a duplicate-free draw s within [lo, hi] has not yet produced. */
  lemma Undrawn(s: seq<int>, lo: int, hi: int) returns (rest: set<int>)
    requires Distinct(s) && AllIn(s, lo, hi) && lo <= hi + 1
    ensures forall v :: v in rest <==> lo <= v <= hi && v !in s
    ensures |rest| == hi - lo + 1 - |s|
  {
    DistinctElements(s);
    IntervalSize(lo, hi);
    rest := Interval(lo, hi) - Elements(s);
    assert Interval(lo, hi) == Elements(s) + rest;
  }

  /**
   * While fewer distinct values have been drawn than [lo, hi] holds, some value
   * of [lo, hi] is still undrawn: the rejection loops always have a way out.
   */
  lemma Pigeonhole(s: seq<int>, lo: int, hi: int)
    requires Distinct(s) && AllIn(s, lo, hi) && |s| < hi - lo + 1
    ensures exists v :: lo <= v <= hi && v !in s
  {
    var rest := Undrawn(s, lo, hi);
    Inhabited(rest);
  }

  lemma Inhabited(s: set<int>)
    requires |s| > 0
    ensures exists v :: v in s
  {
    if forall v :: v !in s {
      assert false;
    }
  }

  /** Once as many distinct values as [lo, hi] holds have been drawn, every value of [lo, hi] is drawn. */
  lemma Exhausted(s: seq<int>, lo: int, hi: int)
    requires Distinct(s) && AllIn(s, lo, hi) && |s| == hi - lo + 1
    ensures forall v :: lo <= v <= hi ==> v in s
  {
    var rest := Undrawn(s, lo, hi);
    assert rest == {};
  }

  /**
   * The source's `while (set.size < count) set.add(random in [lo, hi])`: the
   * values in the set's insertion order.
   */
  method DrawDistinct(lo: int, hi: int, count: nat) returns (s: seq<int>)
    requires count <= hi - lo + 1
    ensures |s| == count && Distinct(s) && AllIn(s, lo, hi)
  {
    s := [];
    while |s| < count
      invariant |s| <= count && Distinct(s) && AllIn(s, lo, hi)
    {
      Pigeonhole(s, lo, hi);
      var v :| lo <= v <= hi && v !in s;
      s := s + [v];
    }
  }

  /** The numbers as present board cells. */
  function Cells(s: seq<int>): (b: Board)
    ensures |b| == |s| && forall i :: 0 <= i < |s| ==> b[i] == Some(s[i])
  {
    seq(|s|, i requires 0 <= i < |s| => Some(s[i]))
  }

  /** n present cells, pairwise different, all within [lo, hi]. */
  predicate FilledWith(cells: Board, lo: int, hi: int, n: int)
  {
    && |cells| == n
    && (forall i :: 0 <= i < n ==> cells[i].Some? && lo <= cells[i].value <= hi)
    && (forall i, j :: 0 <= i < j < n ==> cells[i] != cells[j])
  }

  lemma CellsFilledWith(s: seq<int>, lo: int, hi: int)
    requires Distinct(s) && AllIn(s, lo, hi)
    ensures FilledWith(Cells(s), lo, hi, |s|)
  {
  }

  /** Column bands of the 5x5 boards: B, I, N, G, O of the 75-number variants. */
  function ColumnRanges(t: GameType): seq<(int, int)>
  {
    if t == Ball75 || t == Pattern then [(1, 15), (16, 30), (31, 45), (46, 60), (61, 75)]
    else [(1, 10), (11, 20), (21, 30), (31, 40), (41, 50)]
  }

  /** Cells 5c .. 5c+4: the numbers generated for column band c. */
  function Band(b: Board, c: int): Board
    requires 0 <= c && 5 * c + 5 <= |b|
  {
    b[5 * c..5 * c + 5]
  }

  /** A 5x5 board: 25 cells, laid out band after band, five distinct numbers per band. */
  predicate FiveByFive(b: Board, ranges: seq<(int, int)>)
    requires |ranges| == 5
  {
    && |b| == 25
    && forall c :: 0 <= c < 5 ==> FilledWith(Band(b, c), ranges[c].0, ranges[c].1, 5)
  }

  function Min(a: int, b: int): int
  {
    if a < b then a else b
  }

  /** The cell of row r in column c of the 9-column, 3-row sparse grid. */
  function Cell90(b: Board, r: int, c: int): Cell
  {
    At(b, r * 9 + c)
  }

  function Low90(c: int): int { c * 10 + 1 }
  function High90(c: int): int { Min((c + 1) * 10, 90) }

  /** Column c of a 90-ball board holds one to three distinct numbers of its band, at rows 0..2. */
  predicate Column90(b: Board, c: int)
  {
    && (exists r :: 0 <= r < 3 && Cell90(b, r, c).Some?)
    && (forall r :: 0 <= r < 3 && Cell90(b, r, c).Some? ==>
          Low90(c) <= Cell90(b, r, c).value <= High90(c))
    && (forall r1, r2 :: 0 <= r1 < r2 < 3 && Cell90(b, r1, c).Some? && Cell90(b, r2, c).Some? ==>
          Cell90(b, r1, c) != Cell90(b, r2, c))
  }

  /**
   * A 90-ball board: a sparse array over the 27 cells row*9+col, whose length,
   * as for any array assigned by index, is one past the last assigned cell.
   */
  predicate Board90(b: Board)
  {
    && |b| <= 27
    && (|b| > 0 ==> b[|b| - 1].Some?)
    && forall c :: 0 <= c < 9 ==> Column90(b, c)
  }

  /** The shape generateBoardNumbers promises for each game type. */
  predicate BoardShape(t: GameType, b: Board)
  {
    match t
    case Ball75 => FiveByFive(b, ColumnRanges(t))
    case Pattern => FiveByFive(b, ColumnRanges(t))
    case Ball50 => FiveByFive(b, ColumnRanges(t))
    case Ball90 => Board90(b)
    case Ball30 => FilledWith(b, 1, 30, 9)
    case Coverall => FilledWith(b, 1, 90, 45)
  }

  /** Assignment `numbers[k] = v` on a JavaScript array: past the end it leaves holes and grows the array. */
  function SetSparse(s: Board, k: nat, v: int): (r: Board)
    ensures |r| == (if k < |s| then |s| else k + 1)
    ensures r[k] == Some(v)
    ensures forall j :: j != k ==> At(r, j) == At(s, j)
  {
    if k < |s| then s[k := Some(v)]
    else s + seq(k - |s|, _ => None) + [Some(v)]
  }

  /** positions.indexOf(x) for an x that occurs. */
  function IndexOf(s: seq<int>, x: int): (i: nat)
    requires x in s
    ensures i < |s| && s[i] == x && forall j :: 0 <= j < i ==> s[j] != x
  {
    if s[0] == x then 0 else 1 + IndexOf(s[1..], x)
  }

  /** The orders that sorting [0, 1, 2] with a random comparator can produce. */
  function RowOrders(): (orders: seq<seq<int>>)
    ensures |orders| == 6 && Distinct(orders)
    ensures forall k :: 0 <= k < 6 ==> |orders[k]| == 3 && AllIn(orders[k], 0, 2) && Distinct(orders[k])
  {
    [[0, 1, 2], [0, 2, 1], [1, 0, 2], [1, 2, 0], [2, 0, 1], [2, 1, 0]]
  }

  /** Columns before col are complete, columns from col on are still empty. */
  predicate Partial90(b: Board, col: int)
  {
    && |b| <= 27
    && (|b| > 0 ==> b[|b| - 1].Some?)
    && (forall c :: 0 <= c < col ==> Column90(b, c))
    && (forall r, c :: 0 <= r < 3 && col <= c < 9 ==> Cell90(b, r, c) == None)
  }

  /**
   * Column col of the grid holds, at each row r, the number of colNumbers
   * that positions pairs with r (none when r is not among positions); all
   * other cells read as before.
   */
  predicate Placed(b: Board, numbers: Board, col: int, colNumbers: seq<int>, positions: seq<int>)
    requires |positions| == |colNumbers|
  {
    && |b| <= 27 && (|b| > 0 ==> b[|b| - 1].Some?)
    && (forall r, c :: 0 <= r < 3 && 0 <= c < 9 && c != col ==> Cell90(b, r, c) == Cell90(numbers, r, c))
    && (forall r :: 0 <= r < 3 ==>
          Cell90(b, r, col) == if r in positions then Some(colNumbers[IndexOf(positions, r)]) else None)
  }

  /**
   * Column col of the 90-ball generator, with the random choices as
   * parameters: count numbers drawn from the band (colNumbers, in the order
   * the Set holds them) and put at the first count rows of shuffle k of the
   * rows, the i-th number at the i-th chosen row.
   */
  method FillColumn90(numbers: Board, col: int, count: int, colNumbers: seq<int>, k: int) returns (b: Board)
    requires 0 <= col < 9 && Partial90(numbers, col)
    requires 1 <= count <= 3 && 0 <= k < 6
    requires |colNumbers| == count && Distinct(colNumbers) && AllIn(colNumbers, Low90(col), High90(col))
    ensures Partial90(b, col + 1)
    ensures Placed(b, numbers, col, colNumbers, RowOrders()[k][..count])
  {
    var positions := RowOrders()[k][..count];
    b := PlaceColumn90(numbers, col, colNumbers, positions);
    PlacedColumnIsComplete(b, numbers, col, colNumbers, positions);
  }

  /** The loop over rows that writes one column of the sparse grid. */
  method PlaceColumn90(numbers: Board, col: int, colNumbers: seq<int>, positions: seq<int>) returns (b: Board)
    requires 0 <= col < 9 && Partial90(numbers, col)
    requires |positions| == |colNumbers| && AllIn(positions, 0, 2)
    ensures Placed(b, numbers, col, colNumbers, positions)
  {
    b := numbers;
    for row := 0 to 3
      invariant |b| <= 27 && (|b| > 0 ==> b[|b| - 1].Some?)
      invariant forall r, c :: 0 <= r < 3 && 0 <= c < 9 && c != col ==> Cell90(b, r, c) == Cell90(numbers, r, c)
      invariant forall r :: 0 <= r < row ==>
        Cell90(b, r, col) == if r in positions then Some(colNumbers[IndexOf(positions, r)]) else None
      invariant forall r :: row <= r < 3 ==> Cell90(b, r, col) == None
    {
      if row in positions {
        var num := colNumbers[IndexOf(positions, row)];
        var prev := b;
        b := SetSparse(b, row * 9 + col, num);
        forall r, c | 0 <= r < 3 && 0 <= c < 9 && (r, c) != (row, col)
          ensures Cell90(b, r, c) == Cell90(prev, r, c)
        {
          assert r * 9 + c != row * 9 + col;
        }
      }
    }
  }

  lemma PlacedColumnIsComplete(b: Board, numbers: Board, col: int, colNumbers: seq<int>, positions: seq<int>)
    requires 0 <= col < 9 && Partial90(numbers, col)
    requires 1 <= |positions| == |colNumbers| && AllIn(positions, 0, 2)
    requires Distinct(colNumbers) && AllIn(colNumbers, Low90(col), High90(col))
    requires Placed(b, numbers, col, colNumbers, positions)
    ensures Partial90(b, col + 1)
  {
    assert positions[0] in positions;
    assert Cell90(b, positions[0], col).Some?;
    forall r1, r2 | 0 <= r1 < r2 < 3 && Cell90(b, r1, col).Some? && Cell90(b, r2, col).Some?
      ensures Cell90(b, r1, col) != Cell90(b, r2, col)
    {
      var i1, i2 := IndexOf(positions, r1), IndexOf(positions, r2);
      assert i1 != i2;
    }
    assert Column90(b, col);
    forall c | 0 <= c < col
      ensures Column90(b, c)
    {
      assert forall r :: 0 <= r < 3 ==> Cell90(b, r, c) == Cell90(numbers, r, c);
      assert Column90(numbers, c);
    }
  }

  /** generateBoardNumbers: a fresh board of the shape its game type calls for. */
  method GenerateBoardNumbers(t: GameType) returns (b: Board)
    ensures BoardShape(t, b)
  {
    match t
    case Ball75 => b := GenerateFiveByFive(ColumnRanges(t));
    case Ball50 => b := GenerateFiveByFive(ColumnRanges(t));
    case Pattern => b := GenerateFiveByFive(ColumnRanges(t));
    case Ball90 =>
      b := [];
      for col := 0 to 9
        invariant Partial90(b, col)
      {
        var count :| 1 <= count <= 3;
        var colNumbers := DrawDistinct(Low90(col), High90(col), count);
        var k :| 0 <= k < 6;
        b := FillColumn90(b, col, count, colNumbers, k);
      }
    case Ball30 =>
      var all := DrawDistinct(1, 30, 9);
      b := Cells(all);
      CellsFilledWith(all, 1, 30);
    case Coverall =>
      var all := DrawDistinct(1, 90, 45);
      b := Cells(all);
      CellsFilledWith(all, 1, 90);
  }

  /** The 5x5 branch: five distinct numbers per band, appended band after band. */
  method GenerateFiveByFive(ranges: seq<(int, int)>) returns (b: Board)
    requires |ranges| == 5 && forall c :: 0 <= c < 5 ==> ranges[c].0 + 4 <= ranges[c].1
    ensures FiveByFive(b, ranges)
  {
    b := [];
    for col := 0 to 5
      invariant |b| == 5 * col
      invariant forall c :: 0 <= c < col ==> FilledWith(Band(b, c), ranges[c].0, ranges[c].1, 5)
    {
      var (min, max) := ranges[col];
      var colNumbers := DrawDistinct(min, max, 5);
      var prev := b;
      b := b + Cells(colNumbers);
      forall c | 0 <= c < col
        ensures FilledWith(Band(b, c), ranges[c].0, ranges[c].1, 5)
      {
        assert Band(b, c) == Band(prev, c);
      }
      assert Band(b, col) == Cells(colNumbers);
    }
  }

  /** Band width of the 5x5 variants: 15 for the 75-number tables, 10 for the 50-number one. */
  function BandWidth(t: GameType): int
  {
    if t == Ball50 then 10 else 15
  }

  /** A 5x5 board holds at positions 5c..5c+4 five distinct numbers of [w*c+1, w*c+w]. */
  lemma {:induction false} FiveByFiveBands(t: GameType, b: Board)
    requires t == Ball75 || t == Ball50 || t == Pattern
    requires BoardShape(t, b)
    ensures |b| == 25
    ensures forall c, i :: 0 <= c < 5 && 0 <= i < 5 ==>
      Band(b, c)[i].Some? && BandWidth(t) * c + 1 <= Band(b, c)[i].value <= BandWidth(t) * c + BandWidth(t)
    ensures forall c, i, j :: 0 <= c < 5 && 0 <= i < j < 5 ==> Band(b, c)[i] != Band(b, c)[j]
  {
    var w := BandWidth(t);
    forall c | 0 <= c < 5
      ensures ColumnRanges(t)[c] == (w * c + 1, w * c + w)
    {
      if c == 0 {} else if c == 1 {} else if c == 2 {} else if c == 3 {} else {}
    }
    forall c | 0 <= c < 5
      ensures FilledWith(Band(b, c), w * c + 1, w * c + w, 5)
    {
      assert FilledWith(Band(b, c), ColumnRanges(t)[c].0, ColumnRanges(t)[c].1, 5);
    }
  }

  /** Every number a generated board holds can be drawn: it lies in [1, range] of its game type. */
  lemma {:induction false} ShapeInRange(t: GameType, b: Board)
    requires BoardShape(t, b)
    ensures forall k :: 0 <= k < |b| && b[k].Some? ==> 1 <= b[k].value <= Config(t).range
  {
    match t
    case Ball90 => NinetyInRange(b);
    case Ball30 =>
    case Coverall =>
    case _ => FiveByFiveInRange(t, b);
  }

  lemma {:induction false} NinetyInRange(b: Board)
    requires Board90(b)
    ensures forall k :: 0 <= k < |b| && b[k].Some? ==> 1 <= b[k].value <= 90
  {
    forall k | 0 <= k < |b| && b[k].Some?
      ensures 1 <= b[k].value <= 90
    {
      var r, c := k / 9, k % 9;
      assert r * 9 + c == k;
      assert Cell90(b, r, c) == b[k];
      assert Column90(b, c);
    }
  }

  lemma {:induction false} FiveByFiveInRange(t: GameType, b: Board)
    requires t == Ball75 || t == Ball50 || t == Pattern
    requires FiveByFive(b, ColumnRanges(t))
    ensures forall k :: 0 <= k < |b| && b[k].Some? ==> 1 <= b[k].value <= Config(t).range
  {
    forall k | 0 <= k < |b| && b[k].Some?
      ensures 1 <= b[k].value <= Config(t).range
    {
      var c, i := k / 5, k % 5;
      assert Band(b, c)[i] == b[k];
      assert FilledWith(Band(b, c), ColumnRanges(t)[c].0, ColumnRanges(t)[c].1, 5);
      assert 1 <= ColumnRanges(t)[c].0 && ColumnRanges(t)[c].1 <= Config(t).range;
    }
  }

  /** A sparse 90-ball array is determined by its 27 grid cells, since it ends at its last assigned cell. */
  lemma {:induction false} SameGrid(b1: Board, b2: Board)
    requires |b1| <= 27 && (|b1| > 0 ==> b1[|b1| - 1].Some?)
    requires |b2| <= 27 && (|b2| > 0 ==> b2[|b2| - 1].Some?)
    requires forall r, c :: 0 <= r < 3 && 0 <= c < 9 ==> Cell90(b1, r, c) == Cell90(b2, r, c)
    ensures b1 == b2
  {
    forall k | 0 <= k < 27
      ensures At(b1, k) == At(b2, k)
    {
      var r, c := k / 9, k % 9;
      assert r * 9 + c == k;
      assert Cell90(b1, r, c) == Cell90(b2, r, c);
    }
    if |b1| > 0 {
      assert At(b2, |b1| - 1).Some?;
    }
    if |b2| > 0 {
      assert At(b1, |b2| - 1).Some?;
    }
    forall k | 0 <= k < |b1|
      ensures b1[k] == b2[k]
    {
      assert At(b1, k) == At(b2, k);
    }
  }

  /** A 90-ball board with one number per column, 10c+1, all in the top row. */
  const ROW_ZERO_BOARD: Board := seq(9, c => Some(c * 10 + 1))

  /** Placing the single number 10c+1 at the top of column c extends the row-zero board by one column. */
  lemma {:induction false} RowZeroPrefix(numbers: Board, b: Board, col: int)
    requires 0 <= col < 9 && numbers == ROW_ZERO_BOARD[..col]
    requires Placed(b, numbers, col, [Low90(col)], RowOrders()[0][..1])
    ensures b == ROW_ZERO_BOARD[..col + 1]
  {
    var p := ROW_ZERO_BOARD[..col + 1];
    assert RowOrders()[0][..1] == [0];
    forall r, c | 0 <= r < 3 && 0 <= c < 9
      ensures Cell90(b, r, c) == Cell90(p, r, c)
    {
      if c == col {
        assert Cell90(p, r, c) == if r == 0 then Some(Low90(col)) else None;
      } else {
        assert Cell90(b, r, c) == Cell90(numbers, r, c);
        assert Cell90(numbers, r, c) == if r == 0 && c < col then ROW_ZERO_BOARD[c] else None;
      }
    }
    SameGrid(b, p);
  }

  /**
   * The 90-ball column loop run with one of its legal choices in every
   * column: one number, 10c+1, put at the top row. It deals a board whose
   * second and third rows are blank.
   */
  method DealRowZeroBoard() returns (b: Board)
    ensures b == ROW_ZERO_BOARD && Board90(b)
  {
    b := [];
    for col := 0 to 9
      invariant Partial90(b, col)
      invariant b == ROW_ZERO_BOARD[..col]
    {
      var prev := b;
      b := FillColumn90(b, col, 1, [Low90(col)], 0);
      RowZeroPrefix(prev, b, col);
    }
    assert ROW_ZERO_BOARD[..9] == ROW_ZERO_BOARD;
  }
}
