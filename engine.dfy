/**
 * The session registry and the draw (gamelogic.ts, class GameLogic): games
 * are created, joined, started, drawn, stopped, reset and left. Timers are
 * not modelled: each tick of the draw timer is an explicit CallNextNumber
 * call, and `isCalling` is the one trace the timers leave in a game.
 */
module Engine {
  import opened Types
  import opened Generator
  import opened WinDetector

  /** The winner's share, Math.floor(pot * 0.8 * 0.97), with 0.8 * 0.97 taken as 776/1000. */
  function Winnings(pot: int): (w: int)
    ensures w * 1000 <= pot * 776 < w * 1000 + 1000
    ensures 0 <= pot ==> 0 <= w <= pot
  {
    (pot * 776) / 1000
  }

  lemma PayoutExamples()
    ensures Winnings(1000) == 776 && Winnings(25) == 19
  {
  }

  /** The payout of declareWinner: the winner's balance and total winnings grow by the amount. */
  function Award(players: map<string, Player>, pid: string, amount: int): (r: map<string, Player>)
    requires pid in players
    ensures r.Keys == players.Keys
    ensures r[pid] == players[pid].(balance := players[pid].balance + amount,
                                    totalWon := players[pid].totalWon + amount)
    ensures forall q :: q in players && q != pid ==> r[q] == players[q]
  {
    var p := players[pid];
    players[pid := p.(balance := p.balance + amount, totalWon := p.totalWon + amount)]
  }

  /** The insertion order of a player map: each key once, and only keys. */
  ghost predicate OrderMatches(order: seq<string>, players: map<string, Player>)
  {
    Distinct(order) && forall pid :: pid in order <==> pid in players
  }

  /** order[i] is a winner and no player before it is. */
  predicate FirstWinnerAt(order: seq<string>, i: int, players: map<string, Player>, t: GameType, called: seq<int>)
    requires forall pid :: pid in order ==> pid in players
  {
    && 0 <= i < |order|
    && CheckWin(players[order[i]], t, called).Some?
    && forall j :: 0 <= j < i ==> CheckWin(players[order[j]], t, called).None?
  }

  /** The position of the first player, in insertion order, whose board wins. */
  function FirstWinner(order: seq<string>, players: map<string, Player>, t: GameType, called: seq<int>)
    : (r: Option<nat>)
    requires forall pid :: pid in order ==> pid in players
    ensures r.Some? ==> FirstWinnerAt(order, r.value, players, t, called)
    ensures r.None? ==> forall i :: 0 <= i < |order| ==> CheckWin(players[order[i]], t, called).None?
  {
    if order == [] then None
    else if CheckWin(players[order[0]], t, called).Some? then Some(0)
    else
      match FirstWinner(order[1..], players, t, called)
      case Some(j) => Some(j + 1)
      case None => None
  }

  /** There is one first winner: any position that is one is the position FirstWinner names. */
  lemma {:induction false} FirstWinnerUnique(order: seq<string>, players: map<string, Player>, t: GameType, called: seq<int>, i: int)
    requires forall pid :: pid in order ==> pid in players
    requires FirstWinnerAt(order, i, players, t, called)
    ensures FirstWinner(order, players, t, called) == Some(i)
  {
    if i > 0 {
      assert CheckWin(players[order[0]], t, called).None?;
      var rest := order[1..];
      assert forall j :: 0 <= j < i - 1 ==> rest[j] == order[j + 1];
      FirstWinnerUnique(rest, players, t, called, i - 1);
      assert FirstWinner(order, players, t, called) == Some(i - 1 + 1);
    }
  }

  /** When no player wins, there is no first winner. */
  lemma NoFirstWinner(order: seq<string>, players: map<string, Player>, t: GameType, called: seq<int>)
    requires forall pid :: pid in order ==> pid in players
    requires forall j :: 0 <= j < |order| ==> CheckWin(players[order[j]], t, called).None?
    ensures FirstWinner(order, players, t, called) == None
  {
  }

  /** The loop of checkWinners: players in insertion order, stopping at the first that wins. */
  method FindWinner(order: seq<string>, players: map<string, Player>, t: GameType, called: seq<int>)
    returns (r: Option<nat>)
    requires forall pid :: pid in order ==> pid in players
    ensures r == FirstWinner(order, players, t, called)
  {
    var i := 0;
    while i < |order|
      invariant 0 <= i <= |order|
      invariant forall j :: 0 <= j < i ==> CheckWin(players[order[j]], t, called).None?
    {
      if CheckWin(players[order[i]], t, called).Some? {
        FirstWinnerUnique(order, players, t, called, i);
        return Some(i);
      }
      i := i + 1;
    }
    NoFirstWinner(order, players, t, called);
    r := None;
  }

  /** Map.delete on the player map, seen on its insertion order. */
  function Without(order: seq<string>, pid: string): (r: seq<string>)
    ensures forall q :: q in r <==> q in order && q != pid
    ensures Distinct(order) ==> Distinct(r)
    ensures pid !in order ==> r == order
  {
    if order == [] then []
    else if order[0] == pid then Without(order[1..], pid)
    else
      var rest := Without(order[1..], pid);
      assert Distinct(order) ==> order[0] !in order[1..];
      [order[0]] + rest
  }

  /** x stands before y in s. */
  ghost predicate Before(s: seq<string>, x: string, y: string)
  {
    exists i, j :: 0 <= i < j < |s| && s[i] == x && s[j] == y
  }

  /** Any two entries of r stand in s in the same order as in r. */
  ghost predicate KeepsOrder(r: seq<string>, s: seq<string>)
  {
    forall i, j :: 0 <= i < j < |r| ==> Before(s, r[i], r[j])
  }

  /** Order in the tail of a sequence is order in the sequence. */
  lemma BeforeInTail(s: seq<string>, x: string, y: string)
    requires |s| > 0 && Before(s[1..], x, y)
    ensures Before(s, x, y)
  {
    var i, j :| 0 <= i < j < |s[1..]| && s[1..][i] == x && s[1..][j] == y;
    assert s[i + 1] == x && s[j + 1] == y;
  }

  /** The head of a sequence stands before everything in its tail. */
  lemma HeadBefore(s: seq<string>, y: string)
    requires |s| > 0 && y in s[1..]
    ensures Before(s, s[0], y)
  {
    var k :| 0 <= k < |s[1..]| && s[1..][k] == y;
    assert s[k + 1] == y;
  }

  /** Map.delete keeps the insertion order of the remaining ids. */
  lemma {:induction false} WithoutKeepsOrder(order: seq<string>, pid: string)
    ensures KeepsOrder(Without(order, pid), order)
  {
    if order == [] {
      return;
    }
    var tail := order[1..];
    var rest := Without(tail, pid);
    var r := Without(order, pid);
    WithoutKeepsOrder(tail, pid);
    if order[0] == pid {
      assert r == rest;
      forall i, j | 0 <= i < j < |r|
        ensures Before(order, r[i], r[j])
      {
        BeforeInTail(order, rest[i], rest[j]);
      }
    } else {
      assert r == [order[0]] + rest;
      forall i, j | 0 <= i < j < |r|
        ensures Before(order, r[i], r[j])
      {
        if i == 0 {
          HeadBefore(order, rest[j - 1]);
        } else {
          BeforeInTail(order, rest[i - 1], rest[j - 1]);
        }
      }
    }
  }

  /** The players broadcastToGame sends to: those with a socket that are connected, in insertion order. */
  function Recipients(order: seq<string>, players: map<string, Player>): (r: seq<string>)
    requires forall pid :: pid in order ==> pid in players
    ensures forall q :: q in r <==> q in order && players[q].hasSocket && players[q].connected
  {
    if order == [] then []
    else
      var rest := Recipients(order[1..], players);
      var p := players[order[0]];
      if p.hasSocket && p.connected then [order[0]] + rest else rest
  }

  /** The fields of a game that the engine changes. */
  datatype GameState = GameState(
    active: bool,
    players: map<string, Player>,
    order: seq<string>,
    calledNumbers: seq<int>,
    currentNumber: Option<int>,
    isCalling: bool,
    winner: Option<string>,
    winningPattern: string,
    potAmount: int)

  const INITIAL_STATE := GameState(false, map[], [], [], None, false, None, "", 0)

  /** Appending a drawn number. */
  function Drawn(s: GameState, x: int): GameState
  {
    s.(calledNumbers := s.calledNumbers + [x], currentNumber := Some(x))
  }

  /**
   * checkWinners: with no winner yet, the first winning player in insertion
   * order becomes the winner with the pattern it completes, is paid, and the
   * draw stops; otherwise nothing changes.
   */
  function Settle(s: GameState, t: GameType): (r: GameState)
    requires forall pid :: pid in s.order ==> pid in s.players
    ensures r.order == s.order && r.players.Keys == s.players.Keys
    ensures r.calledNumbers == s.calledNumbers && r.potAmount == s.potAmount
    ensures s.winner.Some? ==> r == s
  {
    if s.winner.Some? then s
    else
      match FirstWinner(s.order, s.players, t, s.calledNumbers)
      case None => s
      case Some(i) =>
        var pid := s.order[i];
        Crowned(s, pid, CheckWin(s.players[pid], t, s.calledNumbers).value)
  }

  /**
   * With no winner yet, a winner is declared exactly when some player's board
   * wins; it is the first such player in insertion order, the pattern is the
   * one its board completes, it alone is paid the winnings, and the draw stops.
   */
  lemma {:induction false} SettleChoosesFirstWinner(s: GameState, t: GameType)
    requires forall pid :: pid in s.order ==> pid in s.players
    requires s.winner.None?
    ensures var r := Settle(s, t);
      && (r.winner.None? <==> forall i :: 0 <= i < |s.order| ==> CheckWin(s.players[s.order[i]], t, s.calledNumbers).None?)
      && (r.winner.None? ==> r == s)
      && (r.winner.Some? ==>
           && (exists i :: FirstWinnerAt(s.order, i, s.players, t, s.calledNumbers) && s.order[i] == r.winner.value)
           && r.winner.value in s.players
           && CheckWin(s.players[r.winner.value], t, s.calledNumbers) == Some(r.winningPattern)
           && !r.isCalling
           && r.players == Award(s.players, r.winner.value, Winnings(s.potAmount)))
  {
    match FirstWinner(s.order, s.players, t, s.calledNumbers)
    case None =>
    case Some(i) =>
      var pid := s.order[i];
      var pattern := CheckWin(s.players[pid], t, s.calledNumbers).value;
      SettleFound(s, t, i);
      assert Settle(s, t) == Crowned(s, pid, pattern);
      assert FirstWinnerAt(s.order, i, s.players, t, s.calledNumbers);
  }

  /** The state after a win: winner and pattern recorded, the winner paid, the draw stopped. */
  function Crowned(s: GameState, pid: string, pattern: string): GameState
    requires pid in s.players
  {
    s.(winner := Some(pid), winningPattern := pattern, isCalling := false,
       players := Award(s.players, pid, Winnings(s.potAmount)))
  }

  lemma SettleFound(s: GameState, t: GameType, i: nat)
    requires forall pid :: pid in s.order ==> pid in s.players
    requires s.winner.None? && FirstWinner(s.order, s.players, t, s.calledNumbers) == Some(i)
    ensures Settle(s, t) == Crowned(s, s.order[i], CheckWin(s.players[s.order[i]], t, s.calledNumbers).value)
  {
  }

  /**
   * A first player whose 90-ball board has a blank row is crowned with
   * "one-line" by the winner check that follows a draw, whatever number was
   * drawn; the first such check comes with the first draw.
   */
  lemma {:induction false} BlankRowCrownedAtFirstDraw(s: GameState, x: int, row: int)
    requires forall pid :: pid in s.order ==> pid in s.players
    requires s.winner.None? && s.order != [] && 0 <= row < 3
    requires forall col :: 0 <= col < 9 ==> !Truthy(Cell90(s.players[s.order[0]].boardNumbers, row, col))
    ensures Settle(Drawn(s, x), Ball90).winner == Some(s.order[0])
    ensures Settle(Drawn(s, x), Ball90).winningPattern == ONE_LINE
  {
    var d := Drawn(s, x);
    BlankRowIsALine(d.players[d.order[0]], d.calledNumbers, row);
    assert FirstWinnerAt(d.order, 0, d.players, Ball90, d.calledNumbers);
    FirstWinnerUnique(d.order, d.players, Ball90, d.calledNumbers, 0);
    SettleFound(d, Ball90, 0);
  }

  /** A second winner check never pays again. */
  lemma SettleOnce(s: GameState, t: GameType)
    requires forall pid :: pid in s.order ==> pid in s.players
    ensures Settle(Settle(s, t), t) == Settle(s, t)
  {
  }

  /** Every player is stored under its own id and holds a board of the game's shape. */
  ghost predicate Dealt(players: map<string, Player>, t: GameType)
  {
    forall pid :: pid in players ==> players[pid].id == pid && BoardShape(t, players[pid].boardNumbers)
  }

  /** The draw holds distinct numbers of the range, and the current number is the last one drawn. */
  ghost predicate DrawFits(called: seq<int>, current: Option<int>, t: GameType)
  {
    && Distinct(called) && AllIn(called, 1, Config(t).range)
    && current == (if called == [] then None else Some(called[|called| - 1]))
  }

  /** A player stored under its id, keeping its place in the order when the id is already there, with its stake added to the pot. */
  function Enrolled(s: GameState, p: Player): GameState
  {
    s.(players := s.players[p.id := p],
       order := if p.id in s.players then s.order else s.order + [p.id],
       potAmount := s.potAmount + p.stake)
  }

  /** The invariant every game keeps between the engine's operations. */
  ghost predicate Consistent(s: GameState, t: GameType)
  {
    && OrderMatches(s.order, s.players)
    && Dealt(s.players, t)
    && DrawFits(s.calledNumbers, s.currentNumber, t)
    && (s.isCalling ==> s.active)
    && (!s.active ==> s.calledNumbers == [] && s.winner.None?)
    && (s.winner.Some? ==> !s.isCalling && s.winningPattern in Config(t).patterns)
    && (s.winner.None? ==> s.winningPattern == "")
    // A game that can be won never runs out of numbers while drawing.
    && (s.isCalling && t != Pattern && s.order != [] ==> |s.calledNumbers| < Config(t).range)
  }

  /**
   * Once every number of the range has been drawn, the first player's card is
   * full, so some player has won (except in the "pattern" game type).
   */
  lemma ExhaustedDrawHasWinner(order: seq<string>, players: map<string, Player>, t: GameType, called: seq<int>)
    requires OrderMatches(order, players) && Dealt(players, t)
    requires Distinct(called) && AllIn(called, 1, Config(t).range)
    ensures t != Pattern && order != [] && |called| == Config(t).range ==>
      FirstWinner(order, players, t, called).Some?
  {
    if t != Pattern && order != [] && |called| == Config(t).range {
      var p := players[order[0]];
      Exhausted(called, 1, Config(t).range);
      ShapeInRange(t, p.boardNumbers);
      FullCardWins(p, t, called);
    }
  }

  /** Drawing a number of the range not drawn before keeps the draw well formed. */
  lemma DrawFitsAppend(called: seq<int>, current: Option<int>, t: GameType, x: int)
    requires DrawFits(called, current, t)
    requires 1 <= x <= Config(t).range && x !in called
    ensures DrawFits(called + [x], Some(x), t)
  {
  }

  /** The invariant without its last clause, which a draw may break until the winner check. */
  ghost predicate Drawing(d: GameState, t: GameType)
  {
    && OrderMatches(d.order, d.players) && Dealt(d.players, t)
    && DrawFits(d.calledNumbers, d.currentNumber, t)
    && d.active && d.isCalling && d.winner.None? && d.winningPattern == ""
  }

  /** A winner check that finds a winner restores the invariant. */
  lemma WinnerKeepsConsistent(d: GameState, t: GameType)
    requires Drawing(d, t)
    requires FirstWinner(d.order, d.players, t, d.calledNumbers).Some?
    ensures Consistent(Settle(d, t), t)
  {
    var i := FirstWinner(d.order, d.players, t, d.calledNumbers).value;
    var pid := d.order[i];
    var pattern := CheckWin(d.players[pid], t, d.calledNumbers).value;
    SettleFound(d, t, i);
    var r := Crowned(d, pid, pattern);
    assert Settle(d, t) == r;
    assert Dealt(r.players, t);
  }

  /** A winner check that finds none keeps a draw that has numbers left. */
  lemma NoWinnerKeepsConsistent(d: GameState, t: GameType)
    requires Drawing(d, t)
    requires FirstWinner(d.order, d.players, t, d.calledNumbers).None?
    requires t != Pattern && d.order != [] ==> |d.calledNumbers| < Config(t).range
    ensures Consistent(Settle(d, t), t)
  {
  }

  /** A draw followed by the winner check keeps the invariant. */
  lemma DrawKeepsConsistent(s: GameState, t: GameType, x: int)
    requires Consistent(s, t) && s.active && s.isCalling
    requires 1 <= x <= Config(t).range && x !in s.calledNumbers
    ensures Consistent(Settle(Drawn(s, x), t), t)
  {
    var d := Drawn(s, x);
    DrawFitsAppend(s.calledNumbers, s.currentNumber, t, x);
    assert Drawing(d, t);
    ExhaustedDrawHasWinner(d.order, d.players, t, d.calledNumbers);
    if FirstWinner(d.order, d.players, t, d.calledNumbers).Some? {
      WinnerKeepsConsistent(d, t);
    } else {
      NoWinnerKeepsConsistent(d, t);
    }
  }

  /** Stopping the draw keeps the invariant. */
  lemma StopKeepsConsistent(s: GameState, t: GameType)
    requires Consistent(s, t)
    ensures Consistent(s.(isCalling := false), t)
  {
  }

  /** Joining an inactive game with a dealt board keeps the invariant. */
  lemma JoinKeepsConsistent(s: GameState, t: GameType, p: Player)
    requires Consistent(s, t) && !s.active && BoardShape(t, p.boardNumbers)
    ensures Consistent(Enrolled(s, p), t)
  {
  }

  /** Removing a player keeps the invariant. */
  lemma LeaveKeepsConsistent(s: GameState, t: GameType, pid: string)
    requires Consistent(s, t)
    ensures Consistent(s.(players := s.players - {pid}, order := Without(s.order, pid)), t)
  {
  }

  /** Every player kept, with a fresh board of the game's shape and no marks. */
  ghost predicate Redealt(before: map<string, Player>, after: map<string, Player>, t: GameType)
  {
    && after.Keys == before.Keys
    && forall pid :: pid in after ==>
         && after[pid] == before[pid].(boardNumbers := after[pid].boardNumbers, markedNumbers := {})
         && BoardShape(t, after[pid].boardNumbers)
  }

  /** The loop of resetGame over the players: a fresh board and no marks for each. */
  method Redeal(order: seq<string>, players: map<string, Player>, t: GameType)
    returns (dealt: map<string, Player>)
    requires forall pid :: pid in players ==> pid in order
    ensures Redealt(players, dealt, t)
  {
    dealt := players;
    ghost var done: set<string> := {};
    var i := 0;
    while i < |order|
      invariant 0 <= i <= |order|
      invariant dealt.Keys == players.Keys
      invariant forall pid :: pid in dealt ==>
        dealt[pid] == players[pid].(boardNumbers := dealt[pid].boardNumbers,
                                    markedNumbers := dealt[pid].markedNumbers)
      invariant forall j :: 0 <= j < i ==> order[j] in done
      invariant forall pid :: pid in done && pid in dealt ==>
        dealt[pid].markedNumbers == {} && BoardShape(t, dealt[pid].boardNumbers)
    {
      var pid := order[i];
      if pid in dealt {
        var board := GenerateBoardNumbers(t);
        dealt := dealt[pid := dealt[pid].(boardNumbers := board, markedNumbers := {})];
      }
      done := done + {pid};
      i := i + 1;
    }
  }

  /** A game back to its inactive state with the given players. */
  function Cleared(s: GameState, players: map<string, Player>): GameState
  {
    s.(players := players, active := false, isCalling := false, calledNumbers := [],
       currentNumber := None, winner := None, winningPattern := "")
  }

  /** Resetting keeps the invariant. */
  lemma ResetKeepsConsistent(s: GameState, t: GameType, players: map<string, Player>)
    requires Consistent(s, t) && Redealt(s.players, players, t)
    ensures Consistent(Cleared(s, players), t)
  {
  }

  /** One game, with the fields the engine updates in place. */
  class Game {
    const id: string
    const gameType: GameType
    var active: bool
    var players: map<string, Player>
    var order: seq<string>
    var calledNumbers: seq<int>
    var currentNumber: Option<int>
    var isCalling: bool
    var winner: Option<string>
    var winningPattern: string
    var potAmount: int

    function State(): GameState
      reads this
    {
      GameState(active, players, order, calledNumbers, currentNumber, isCalling, winner, winningPattern, potAmount)
    }

    ghost predicate Valid()
      reads this
    {
      Consistent(State(), gameType)
    }

    /** The part of joinGame that stores the player, with its board, and collects its stake. */
    method Enroll(p: Player)
      requires Valid() && !active && BoardShape(gameType, p.boardNumbers)
      modifies this
      ensures Valid()
      ensures State() == Enrolled(old(State()), p)
    {
      ghost var s := State();
      if p.id !in players {
        order := order + [p.id];
      }
      players := players[p.id := p];
      potAmount := potAmount + p.stake;
      assert State() == Enrolled(s, p);
      JoinKeepsConsistent(s, gameType, p);
    }

    /**
     * The part of resetGame after stopCalling: the draw, the current number
     * and the winner cleared, the game inactive, every player redealt.
     */
    method Restart()
      requires Valid() && !isCalling
      modifies this
      ensures Valid()
      ensures Redealt(old(players), players, gameType)
      ensures State() == Cleared(old(State()), players)
    {
      ghost var s := State();
      calledNumbers := [];
      currentNumber := None;
      winner := None;
      winningPattern := "";
      active := false;
      players := Redeal(order, players, gameType);
      assert State() == Cleared(s, players);
      ResetKeepsConsistent(s, gameType, players);
    }

    /** An inactive game with no players, nothing drawn, no winner and an empty pot. */
    constructor (id: string, gameType: GameType)
      ensures this.id == id && this.gameType == gameType
      ensures State() == INITIAL_STATE
      ensures Valid()
    {
      this.id := id;
      this.gameType := gameType;
      active := false;
      players := map[];
      order := [];
      calledNumbers := [];
      currentNumber := None;
      isCalling := false;
      winner := None;
      winningPattern := "";
      potAmount := 0;
    }
  }

  /** The registry of games. */
  class GameLogic {
    var games: map<string, Game>

    /** The game an operation on gameId may change: none when the id is unknown. */
    function Frame(gameId: string): set<object>
      reads this
    {
      if gameId in games then {games[gameId]} else {}
    }

    /**
     * The game stored under gameId, if any, carries that id and keeps the
     * invariant. An operation on one game changes no other game (its frame
     * is that game alone), so other games keep theirs.
     */
    ghost predicate Valid(gameId: string)
      reads this, Frame(gameId)
    {
      gameId in games ==> games[gameId].id == gameId && games[gameId].Valid()
    }

    constructor ()
      ensures games == map[]
    {
      games := map[];
    }

    /**
     * createGame, with the generated id passed in. Map.set replaces a game
     * stored under the same id.
     */
    method CreateGame(gameType: GameType, gameId: string) returns (game: Game)
      modifies this
      ensures Valid(gameId) && fresh(game)
      ensures games == old(games)[gameId := game]
      ensures game.id == gameId && game.gameType == gameType && game.State() == INITIAL_STATE
    {
      game := new Game(gameId, gameType);
      games := games[gameId := game];
    }

    /**
     * joinGame: refused for a missing or active game; otherwise the player
     * gets a fresh board, is stored under its id (keeping its place when the
     * id is already there) and its stake goes into the pot.
     */
    method JoinGame(gameId: string, player: Player) returns (ok: bool)
      requires Valid(gameId)
      modifies Frame(gameId)
      ensures Valid(gameId) && games == old(games)
      ensures ok <==> gameId in games && !old(games[gameId].active)
      ensures gameId in games && !ok ==> unchanged(games[gameId])
      ensures ok ==>
        var g := games[gameId];
        var s := old(g.State());
        && player.id in g.players
        && BoardShape(g.gameType, g.players[player.id].boardNumbers)
        && g.State() == Enrolled(s, player.(boardNumbers := g.players[player.id].boardNumbers))
    {
      if gameId !in games {
        return false;
      }
      var g := games[gameId];
      if g.active {
        return false;
      }
      var board := GenerateBoardNumbers(g.gameType);
      g.Enroll(player.(boardNumbers := board));
      ok := true;
    }

    /** startGame: refused for a missing or active game; otherwise the game becomes active and drawing. */
    method StartGame(gameId: string) returns (ok: bool)
      requires Valid(gameId)
      modifies Frame(gameId)
      ensures Valid(gameId) && games == old(games)
      ensures ok <==> gameId in games && !old(games[gameId].active)
      ensures gameId in games && !ok ==> unchanged(games[gameId])
      ensures ok ==> games[gameId].State() == old(games[gameId].State()).(active := true, isCalling := true)
    {
      if gameId !in games {
        return false;
      }
      var g := games[gameId];
      if g.active {
        return false;
      }
      g.active := true;
      g.isCalling := true;
      ok := true;
    }

    /** stopCalling: the game, when there is one, stops drawing; nothing else changes. */
    method StopCalling(gameId: string)
      modifies Frame(gameId)
      ensures games == old(games)
      ensures old(Valid(gameId)) ==> Valid(gameId)
      ensures gameId in games ==> games[gameId].State() == old(games[gameId].State()).(isCalling := false)
    {
      if gameId in games {
        var g := games[gameId];
        ghost var s := g.State();
        g.isCalling := false;
        assert g.State() == s.(isCalling := false);
        if Consistent(s, g.gameType) {
          StopKeepsConsistent(s, g.gameType);
        }
      }
    }

    /** The payout part of declareWinner. */
    method DeclareWinner(gameId: string, pid: string)
      requires gameId in games ==> pid in games[gameId].players
      modifies Frame(gameId)
      ensures games == old(games)
      ensures gameId in games ==>
        var s := old(games[gameId].State());
        games[gameId].State() == s.(players := Award(s.players, pid, Winnings(s.potAmount)))
    {
      if gameId in games {
        var g := games[gameId];
        var winnings := Winnings(g.potAmount);
        var p := g.players[pid];
        g.players := g.players[pid := p.(balance := p.balance + winnings, totalWon := p.totalWon + winnings)];
      }
    }

    /** checkWinners on the current draw. */
    method CheckWinners(gameId: string)
      requires gameId in games ==> OrderMatches(games[gameId].order, games[gameId].players)
      modifies Frame(gameId)
      ensures games == old(games)
      ensures gameId in games ==> games[gameId].State() == Settle(old(games[gameId].State()), games[gameId].gameType)
    {
      if gameId !in games {
        return;
      }
      var g := games[gameId];
      if g.winner.Some? {
        return;
      }
      ghost var s := g.State();
      var found := FindWinner(g.order, g.players, g.gameType, g.calledNumbers);
      if found.Some? {
        var pid := g.order[found.value];
        var pattern := CheckWin(g.players[pid], g.gameType, g.calledNumbers).value;
        Crown(gameId, pid, pattern);
        SettleFound(s, g.gameType, found.value);
      }
    }

    /** The winning branch of checkWinners: record the winner and its pattern, pay, stop the draw. */
    method Crown(gameId: string, pid: string, pattern: string)
      requires gameId in games ==> pid in games[gameId].players
      modifies Frame(gameId)
      ensures games == old(games)
      ensures gameId in games ==>
        var s := old(games[gameId].State());
        games[gameId].State() == Crowned(s, pid, pattern)
    {
      if gameId !in games {
        return;
      }
      var g := games[gameId];
      g.winner := Some(pid);
      g.winningPattern := pattern;
      DeclareWinner(gameId, pid);
      StopCalling(gameId);
    }

    /**
     * callNextNumber: nothing happens unless the game exists, is active and
     * is drawing; then one number of [1, range] not drawn before is appended
     * and becomes the current number, and the winners are checked. The
     * source's retry loop never ends once every number is drawn, hence the
     * second precondition.
     */
    method CallNextNumber(gameId: string)
      requires Valid(gameId)
      requires gameId in games && games[gameId].active && games[gameId].isCalling ==>
        |games[gameId].calledNumbers| < Config(games[gameId].gameType).range
      modifies Frame(gameId)
      ensures Valid(gameId) && games == old(games)
      ensures gameId in games && !(old(games[gameId].active) && old(games[gameId].isCalling)) ==>
        unchanged(games[gameId])
      ensures gameId in games && old(games[gameId].active) && old(games[gameId].isCalling) ==>
        var g := games[gameId];
        var s := old(g.State());
        var n := |s.calledNumbers|;
        && |g.calledNumbers| == n + 1
        && 1 <= g.calledNumbers[n] <= Config(g.gameType).range
        && g.calledNumbers[n] !in s.calledNumbers
        && g.State() == Settle(Drawn(s, g.calledNumbers[n]), g.gameType)
    {
      if gameId !in games {
        return;
      }
      var g := games[gameId];
      if !g.active || !g.isCalling {
        return;
      }
      ghost var s := g.State();
      var range := Config(g.gameType).range;
      Pigeonhole(g.calledNumbers, 1, range);
      var number :| 1 <= number <= range && number !in g.calledNumbers;
      g.calledNumbers := g.calledNumbers + [number];
      g.currentNumber := Some(number);
      assert g.State() == Drawn(s, number);
      CheckWinners(gameId);
      assert g.State() == Settle(Drawn(s, number), g.gameType);
      DrawKeepsConsistent(s, g.gameType, number);
    }

    /**
     * resetGame: refused for a missing game; otherwise drawing stops, the
     * draw, the current number and the winner are cleared, the game is
     * inactive again, and every player gets a fresh board and no marks. Id,
     * type, order, players and pot stay.
     */
    method ResetGame(gameId: string) returns (ok: bool)
      requires Valid(gameId)
      modifies Frame(gameId)
      ensures Valid(gameId) && games == old(games)
      ensures ok <==> gameId in games
      ensures ok ==>
        var g := games[gameId];
        var s := old(g.State());
        && Redealt(s.players, g.players, g.gameType)
        && g.State() == Cleared(s, g.players)
    {
      if gameId !in games {
        return false;
      }
      var g := games[gameId];
      StopCalling(gameId);
      g.Restart();
      ok := true;
    }

    /** removePlayer: whether the game exists and held the player, who is gone afterwards. */
    method RemovePlayer(gameId: string, playerId: string) returns (removed: bool)
      requires Valid(gameId)
      modifies Frame(gameId)
      ensures Valid(gameId) && games == old(games)
      ensures removed <==> gameId in games && playerId in old(games[gameId].players)
      ensures gameId in games ==>
        var s := old(games[gameId].State());
        games[gameId].State() == s.(players := s.players - {playerId}, order := Without(s.order, playerId))
    {
      if gameId !in games {
        return false;
      }
      var g := games[gameId];
      ghost var s := g.State();
      removed := playerId in g.players;
      g.players := g.players - {playerId};
      g.order := Without(g.order, playerId);
      LeaveKeepsConsistent(s, g.gameType, playerId);
    }
  }
}
