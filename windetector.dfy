/**
 * Win detection (gamelogic.ts, checkWin and checkPattern): read-only
 * predicates over a board, the set of marked numbers and the game type.
 * The loops with early exits of the source are quantifiers here.
 */
module WinDetector {
  import opened Types
  import opened Generator

  /** The authoritative marks: the numbers on the board that have been called. */
  function Marked(board: Board, called: seq<int>): (m: set<int>)
    ensures forall v :: v in m <==> v in called && exists k :: 0 <= k < |board| && board[k] == Some(v)
  {
    set k | 0 <= k < |board| && board[k].Some? && board[k].value in called :: board[k].value
  }

  /** `markedNumbers.has(cell)`: a hole reads as undefined, which no set of numbers holds. */
  predicate Has(marked: set<int>, c: Cell)
  {
    c.Some? && c.value in marked
  }

  /** The test `boardNumbers[index] &&`: a hole and the number 0 are falsy. */
  predicate Truthy(c: Cell)
  {
    c.Some? && c.value != 0
  }

  /** Cell (row, col) of a rows-by-cols grid, read row-major; cells past the end count as done. */
  predicate GridCellDone(b: Board, m: set<int>, cols: int, row: int, col: int)
  {
    var k := row * cols + col;
    k >= |b| || Has(m, At(b, k))
  }

  predicate RowComplete(b: Board, m: set<int>, cols: int, row: int)
  {
    forall col :: 0 <= col < cols ==> GridCellDone(b, m, cols, row, col)
  }

  predicate ColumnComplete(b: Board, m: set<int>, cols: int, rows: int, col: int)
  {
    forall row :: 0 <= row < rows ==> GridCellDone(b, m, cols, row, col)
  }

  predicate DiagonalCellDone(b: Board, m: set<int>, cols: int, i: int)
  {
    Has(m, At(b, i * cols + i))
  }

  predicate AntiDiagonalCellDone(b: Board, m: set<int>, cols: int, i: int)
  {
    Has(m, At(b, i * cols + (cols - 1 - i)))
  }

  /** Cell (row, col) of the 9-by-3 grid is blank or marked. */
  predicate LineCellDone(b: Board, m: set<int>, row: int, col: int)
  {
    var c := At(b, row * 9 + col);
    !Truthy(c) || Has(m, c)
  }

  /** A 90-ball line: every non-blank cell of the row is marked. */
  predicate LineComplete(b: Board, m: set<int>, row: int)
  {
    forall col :: 0 <= col < 9 ==> LineCellDone(b, m, row, col)
  }

  function CompleteLines(b: Board, m: set<int>): nat
  {
    (if LineComplete(b, m, 0) then 1 else 0)
    + (if LineComplete(b, m, 1) then 1 else 0)
    + (if LineComplete(b, m, 2) then 1 else 0)
  }

  /** `boardNumbers.every(n => markedNumbers.has(n))`: every skips holes. */
  predicate AllPresentMarked(b: Board, m: set<int>)
  {
    forall k :: 0 <= k < |b| && b[k].Some? ==> b[k].value in m
  }

  /** checkPattern: whether the named pattern is complete; an unknown name never is. */
  predicate CheckPattern(pattern: string, b: Board, m: set<int>, t: GameType)
  {
    var cfg := Config(t);
    if pattern == ROW then
      exists row :: 0 <= row < cfg.rows && RowComplete(b, m, cfg.columns, row)
    else if pattern == COLUMN then
      exists col :: 0 <= col < cfg.columns && ColumnComplete(b, m, cfg.columns, cfg.rows, col)
    else if pattern == DIAGONAL then
      && cfg.rows == cfg.columns
      && ((forall i :: 0 <= i < cfg.rows ==> DiagonalCellDone(b, m, cfg.columns, i))
          || (forall i :: 0 <= i < cfg.rows ==> AntiDiagonalCellDone(b, m, cfg.columns, i)))
    else if pattern == FOUR_CORNERS then
      |b| >= 25 && Has(m, b[0]) && Has(m, b[4]) && Has(m, b[20]) && Has(m, b[24])
    else if pattern == FULL_HOUSE then
      AllPresentMarked(b, m)
    else if pattern == ONE_LINE then
      t == Ball90 && exists row :: 0 <= row < 3 && LineComplete(b, m, row)
    else if pattern == TWO_LINES then
      t == Ball90 && CompleteLines(b, m) >= 2
    else if pattern == FULL_BOARD then
      AllPresentMarked(b, m)
    else
      false
  }

  /** patterns[i] is complete and no pattern before it is. */
  predicate FirstComplete(patterns: seq<string>, i: int, b: Board, m: set<int>, t: GameType)
  {
    && 0 <= i < |patterns|
    && CheckPattern(patterns[i], b, m, t)
    && forall j :: 0 <= j < i ==> !CheckPattern(patterns[j], b, m, t)
  }

  /** The position of the first complete pattern of the list, in list order. */
  function FirstPatternIndex(patterns: seq<string>, b: Board, m: set<int>, t: GameType): (r: Option<nat>)
    ensures r.Some? ==> FirstComplete(patterns, r.value, b, m, t)
    ensures r.None? ==> forall i :: 0 <= i < |patterns| ==> !CheckPattern(patterns[i], b, m, t)
  {
    if patterns == [] then None
    else if CheckPattern(patterns[0], b, m, t) then Some(0)
    else
      match FirstPatternIndex(patterns[1..], b, m, t)
      case Some(j) => Some(j + 1)
      case None => None
  }

  /**
   * checkWin: the first pattern of the game type's list that the player's
   * board completes, with the marks taken as the board's called numbers.
   */
  function CheckWin(player: Player, t: GameType, called: seq<int>): (r: Option<string>)
    ensures r.Some? ==> r.value in Config(t).patterns
  {
    var ps := Config(t).patterns;
    match FirstPatternIndex(ps, player.boardNumbers, Marked(player.boardNumbers, called), t)
    case Some(i) => Some(ps[i])
    case None => None
  }

  /**
   * The reported pattern is the first of the list that the board completes,
   * and there is none exactly when the board completes no pattern of the list.
   */
  lemma CheckWinFirstMatch(player: Player, t: GameType, called: seq<int>)
    ensures var r, b, m, ps := CheckWin(player, t, called), player.boardNumbers, Marked(player.boardNumbers, called), Config(t).patterns;
      && (r.Some? ==> exists i :: FirstComplete(ps, i, b, m, t) && ps[i] == r.value)
      && (r.None? <==> forall i :: 0 <= i < |ps| ==> !CheckPattern(ps[i], b, m, t))
  {
    var b, m, ps := player.boardNumbers, Marked(player.boardNumbers, called), Config(t).patterns;
    var k := FirstPatternIndex(ps, b, m, t);
    if k.Some? {
      assert FirstComplete(ps, k.value, b, m, t);
    }
  }

  /** A cell holds a mark exactly when it holds a number that has been called. */
  lemma MarkedCell(b: Board, called: seq<int>, k: int)
    requires 0 <= k < |b|
    ensures Has(Marked(b, called), b[k]) <==> b[k].Some? && b[k].value in called
  {
    if b[k].Some? && b[k].value in called {
      assert b[k] == Some(b[k].value);
    }
  }

  /** The player's own marks never decide a win. */
  lemma CheckWinIgnoresOwnMarks(player: Player, marks: set<int>, t: GameType, called: seq<int>)
    ensures CheckWin(player.(markedNumbers := marks), t, called) == CheckWin(player, t, called)
  {
  }

  /** None of the patterns of the "pattern" game type has a matcher, so it never wins. */
  lemma {:induction false} PatternTypeNeverWins(player: Player, called: seq<int>)
    ensures CheckWin(player, Pattern, called) == None
  {
    var ps := Config(Pattern).patterns;
    CheckWinFirstMatch(player, Pattern, called);
    forall i | 0 <= i < |ps|
      ensures !CheckPattern(ps[i], player.boardNumbers, Marked(player.boardNumbers, called), Pattern)
    {
      assert ps[i][0] in {'x', 'f', 'p', 's'};
    }
  }

  /** Once every number of a board is called, the board wins, except in the "pattern" game type. */
  lemma {:induction false} FullCardWins(player: Player, t: GameType, called: seq<int>)
    requires t != Pattern
    requires forall k :: 0 <= k < |player.boardNumbers| && player.boardNumbers[k].Some? ==>
      player.boardNumbers[k].value in called
    ensures CheckWin(player, t, called).Some?
    ensures t == Ball30 ==> CheckWin(player, t, called) == Some(FULL_HOUSE)
    ensures t == Coverall ==> CheckWin(player, t, called) == Some(FULL_BOARD)
  {
    var b := player.boardNumbers;
    var m := Marked(b, called);
    forall k | 0 <= k < |b| && b[k].Some?
      ensures b[k].value in m
    {
      MarkedCell(b, called, k);
    }
    var ps := Config(t).patterns;
    CheckWinFirstMatch(player, t, called);
    var last := |ps| - 1;
    assert ps[last] == FULL_HOUSE || ps[last] == FULL_BOARD;
    assert CheckPattern(ps[last], b, m, t);
  }

  /**
   * For the 90-ball game "one-line" comes first: a board with two complete
   * lines, or a full house, already has one line, so checkWin never reports
   * "two-lines" or "full-house".
   */
  lemma {:induction false} NinetyBallReportsOnlyOneLine(player: Player, called: seq<int>)
    ensures CheckWin(player, Ball90, called) in {None, Some(ONE_LINE)}
  {
    var b := player.boardNumbers;
    var m := Marked(b, called);
    var ps := Config(Ball90).patterns;
    CheckWinFirstMatch(player, Ball90, called);
    FullHouseCompletesLines(b, m);
    if !CheckPattern(ONE_LINE, b, m, Ball90) {
      assert !LineComplete(b, m, 0) && !LineComplete(b, m, 1) && !LineComplete(b, m, 2);
      assert !CheckPattern(TWO_LINES, b, m, Ball90);
      assert !CheckPattern(FULL_HOUSE, b, m, Ball90);
      assert forall i :: 0 <= i < |ps| ==> !CheckPattern(ps[i], b, m, Ball90);
    }
  }

  /** Every number marked: every 90-ball line is complete. */
  lemma FullHouseCompletesLines(b: Board, m: set<int>)
    ensures AllPresentMarked(b, m) ==> LineComplete(b, m, 0) && LineComplete(b, m, 1) && LineComplete(b, m, 2)
  {
    if AllPresentMarked(b, m) {
      forall row, col | 0 <= row < 3 && 0 <= col < 9
        ensures LineCellDone(b, m, row, col)
      {
        var c := At(b, row * 9 + col);
      }
    }
  }

  /** A 90-ball row without numbers is a complete line, whatever has been called. */
  lemma {:induction false} BlankRowIsALine(player: Player, called: seq<int>, row: int)
    requires 0 <= row < 3
    requires forall col :: 0 <= col < 9 ==> !Truthy(Cell90(player.boardNumbers, row, col))
    ensures CheckWin(player, Ball90, called) == Some(ONE_LINE)
  {
    var b := player.boardNumbers;
    var m := Marked(b, called);
    forall col | 0 <= col < 9
      ensures LineCellDone(b, m, row, col)
    {
      assert !Truthy(Cell90(b, row, col));
    }
    assert LineComplete(b, m, row);
    assert CheckPattern(ONE_LINE, b, m, Ball90);
    CheckWinFirstMatch(player, Ball90, called);
  }

  /**
   * The row-zero board, which the 90-ball generator can deal (see
   * DealRowZeroBoard), wins "one-line" whatever has been called, since its
   * second row is blank.
   */
  lemma DealtBoardWinsAtOnce(player: Player, called: seq<int>)
    requires player.boardNumbers == ROW_ZERO_BOARD
    ensures CheckWin(player, Ball90, called) == Some(ONE_LINE)
  {
    BlankRowIsALine(player, called, 1);
  }

  /** Every number of band c is marked. */
  predicate BandMarked(b: Board, m: set<int>, c: int)
    requires |b| == 25 && 0 <= c < 5
  {
    forall i :: 0 <= i < 5 ==> Has(m, Band(b, c)[i])
  }

  /** The i-th number of every band is marked. */
  predicate PositionMarked(b: Board, m: set<int>, i: int)
    requires |b| == 25 && 0 <= i < 5
  {
    forall c :: 0 <= c < 5 ==> Has(m, Band(b, c)[i])
  }

  /**
   * On the 5x5 boards the "row" pattern reads cells row*5+col, which the
   * generator filled band by band: row r is band r, and column c holds the
   * c-th number drawn for every band.
   */
  lemma {:induction false} RowsAreBands(b: Board, m: set<int>, t: GameType)
    requires t == Ball75 || t == Ball50 || t == Pattern
    requires |b| == 25
    ensures CheckPattern(ROW, b, m, t) <==> exists c :: 0 <= c < 5 && BandMarked(b, m, c)
    ensures CheckPattern(COLUMN, b, m, t) <==> exists i :: 0 <= i < 5 && PositionMarked(b, m, i)
  {
    assert Config(t).rows == 5 && Config(t).columns == 5;
    forall r | 0 <= r < 5
      ensures RowComplete(b, m, 5, r) <==> BandMarked(b, m, r)
    {
      forall i | 0 <= i < 5
        ensures GridCellDone(b, m, 5, r, i) <==> Has(m, Band(b, r)[i])
      {
        assert Band(b, r)[i] == b[r * 5 + i];
      }
    }
    forall i | 0 <= i < 5
      ensures ColumnComplete(b, m, 5, 5, i) <==> PositionMarked(b, m, i)
    {
      forall r | 0 <= r < 5
        ensures GridCellDone(b, m, 5, r, i) <==> Has(m, Band(b, r)[i])
      {
        assert Band(b, r)[i] == b[r * 5 + i];
      }
    }
  }

  /**
   * On a generated 5x5 board a full house completes every row, and "row"
   * comes first: checkWin never reports "full-house" there.
   */
  lemma {:induction false} FiveByFiveNeverReportsFullHouse(player: Player, t: GameType, called: seq<int>)
    requires t == Ball75 || t == Ball50
    requires BoardShape(t, player.boardNumbers)
    ensures CheckWin(player, t, called) != Some(FULL_HOUSE)
  {
    var b := player.boardNumbers;
    var m := Marked(b, called);
    CheckWinFirstMatch(player, t, called);
    if AllPresentMarked(b, m) {
      FiveByFiveBands(t, b);
      forall col | 0 <= col < 5
        ensures GridCellDone(b, m, 5, 0, col)
      {
        assert Band(b, 0)[col] == b[col];
      }
      assert RowComplete(b, m, 5, 0);
      assert CheckPattern(ROW, b, m, t);
      assert FirstComplete(Config(t).patterns, 0, b, m, t);
    }
  }
}
