/**
 * The static board configuration table and the record shapes that the game
 * engine works on (types.ts).
 */
module Types {

  datatype Option<T> = None | Some(value: T)

  /** The six game variants of the `GameType` string union. */
  datatype GameType = Ball75 | Ball90 | Ball30 | Ball50 | Pattern | Coverall

  /** The string tag that stands for each variant in the union. */
  function TypeId(t: GameType): string
  {
    match t
    case Ball75 => "75ball"
    case Ball90 => "90ball"
    case Ball30 => "30ball"
    case Ball50 => "50ball"
    case Pattern => "pattern"
    case Coverall => "coverall"
  }

  /** The six tags are distinct: a tag names one game type. */
  lemma {:induction false} TypeIdInjective(t: GameType, u: GameType)
    ensures TypeId(t) == TypeId(u) ==> t == u
  {
    assert TypeId(t)[0] == TypeId(u)[0] ==> t == u;
  }

  // Win-pattern names as they appear in the configuration table.
  const ROW := "row"
  const COLUMN := "column"
  const DIAGONAL := "diagonal"
  const FOUR_CORNERS := "four-corners"
  const FULL_HOUSE := "full-house"
  const ONE_LINE := "one-line"
  const TWO_LINES := "two-lines"
  const FULL_BOARD := "full-board"

  /** One entry of the configuration table. */
  datatype BoardConfig = BoardConfig(
    id: string,
    name: string,
    columns: nat,
    rows: nat,
    range: nat,
    patterns: seq<string>)

  /** The configuration table: layout, highest drawable number and ordered patterns per game type. */
  function Config(t: GameType): (c: BoardConfig)
    ensures c.id == TypeId(t)
    ensures 1 <= c.rows * c.columns <= c.range
    ensures |c.patterns| > 0 && forall i :: 0 <= i < |c.patterns| ==> c.patterns[i] != ""
  {
    match t
    case Ball75 => BoardConfig("75ball", "75-ቢንጎ", 5, 5, 75, [ROW, COLUMN, DIAGONAL, FOUR_CORNERS, FULL_HOUSE])
    case Ball90 => BoardConfig("90ball", "90-ቢንጎ", 9, 3, 90, [ONE_LINE, TWO_LINES, FULL_HOUSE])
    case Ball30 => BoardConfig("30ball", "30-ቢንጎ", 3, 3, 30, [FULL_HOUSE])
    case Ball50 => BoardConfig("50ball", "50-ቢንጎ", 5, 5, 50, [ROW, COLUMN, DIAGONAL, FOUR_CORNERS, FULL_HOUSE])
    case Pattern => BoardConfig("pattern", "ንድፍ ቢንጎ", 5, 5, 75, ["x-pattern", "frame", "postage-stamp", "small-diamond"])
    case Coverall => BoardConfig("coverall", "ሙሉ ቤት", 9, 5, 90, [FULL_BOARD])
  }

  /**
   * A board cell. The 90-ball board is a sparse array: a cell that was never
   * assigned is a hole, written None.
   */
  type Cell = Option<int>
  type Board = seq<Cell>

  /** Reading index k of a board; past the end, like a hole, gives no number. */
  function At(b: Board, k: int): (c: Cell)
    ensures c.Some? ==> 0 <= k < |b| && b[k] == c
    ensures 0 <= k < |b| ==> c == b[k]
  {
    if 0 <= k < |b| then b[k] else None
  }

  /** A registered player. `hasSocket` stands for the optional socket handle. */
  datatype Player = Player(
    id: string,
    name: string,
    phone: string,
    stake: int,
    payment: int,
    boardId: int,
    gameType: GameType,
    hasSocket: bool,
    boardNumbers: Board,
    markedNumbers: set<int>,
    connected: bool,
    balance: int,
    totalWon: int)
}
