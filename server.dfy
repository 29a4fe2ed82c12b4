/**
 * The matchmaking and turn state machine of ConnectFourServer (src/server.py).
 *
 * The server keeps two tables: lobby id to Game, and peer address to the lobby
 * id that peer last asked to join. Each packet handler runs here as one atomic
 * step that updates the tables and returns what it writes, in order, together
 * with the exception, if any, that ends the client's task.
 *
 * What the source leaves to other code becomes a parameter: `drop_piece` and
 * `check_win` (not part of this model) are the functions `drop` and
 * `checkWin`, which either return or raise, `uuid.uuid4()` is `freshId`, and
 * `random.choice` between the two player ids is the flag `redStarts`.
 */
module Server {
  import opened Wrappers
  import opened ConnectFourBoard
  import opened Data

  /**
   * The Python exceptions a handler can raise; BoardError stands for whatever
   * `drop_piece` or `check_win` raise.
   */
  datatype Exception = KeyError | AttributeError | TypeError | BoardError

  /** The packets one step writes, in order, and the exception it ends with, if any. */
  datatype Outcome = Outcome(sends: seq<Send>, raised: Option<Exception>)

  /** Run `first`, then `second` unless `first` raised. */
  function Then(first: Outcome, second: Outcome): Outcome
  {
    if first.raised.Some? then first else Outcome(first.sends + second.sends, second.raised)
  }

  /** The addresses a list of sends goes to, in order. */
  function Recipients(sends: seq<Send>): (addrs: seq<Addr>)
    ensures |addrs| == |sends|
    ensures forall i :: 0 <= i < |sends| ==> addrs[i] == sends[i].to
  {
    seq(|sends|, i requires 0 <= i < |sends| => sends[i].to)
  }

  /**
   * `broadcast`: the packet goes to red first and then to yellow. With no
   * yellow player the second write fails with AttributeError after red has
   * been sent the packet.
   */
  function Broadcast(g: Game, p: Packet): (r: Outcome)
    ensures Recipients(r.sends) == [g.red.addr] + (if g.yellow.Some? then [g.yellow.value.addr] else [])
    ensures forall s :: s in r.sends ==> s.packet == p
    ensures r.raised.None? <==> g.yellow.Some?
    ensures r.raised.Some? ==> r.raised.value == AttributeError
  {
    var toRed := Send(g.red.addr, p);
    match g.yellow
    case Some(y) => Outcome([toRed, Send(y.addr, p)], None)
    case None => Outcome([toRed], Some(AttributeError))
  }

  // ------------------------------------------------------------------ turns

  /** The turn marker is unset or holds the id of one of the game's players. */
  predicate TurnHeld(g: Game)
  {
    g.turn.None? || g.turn.value == g.red.id || (g.yellow.Some? && g.turn.value == g.yellow.value.id)
  }

  /** Every game is filed under its own lobby id and its turn marker names one of its players. */
  ghost predicate GamesValid(games: map<string, Game>)
  {
    forall id :: id in games ==> games[id].gameId == id && TurnHeld(games[id])
  }

  /**
   * The colour `handle_move` drops: RED exactly when the turn marker holds
   * red's id. Who sent the move is never looked at.
   */
  function MoverColour(g: Game): ConnectCell
  {
    if g.turn == Some(g.red.id) then Red else Yellow
  }

  /**
   * The turn marker `handle_move` stores: yellow's id after red's turn and
   * red's id after anything else; None where it reads the id of a yellow
   * player that is not there (AttributeError).
   */
  function NextTurn(g: Game): Option<PlayerId>
  {
    if g.turn == Some(g.red.id) then
      match g.yellow
      case Some(y) => Some(y.id)
      case None => None
    else Some(g.red.id)
  }

  /** The id of the player other than the one holding `id`. */
  function Other(g: Game, id: PlayerId): PlayerId
    requires g.yellow.Some?
  {
    if id == g.red.id then g.yellow.value.id else g.red.id
  }

  /** The turn marker after n moves in g, boards aside; None once a move would raise. */
  function TurnAfter(g: Game, n: nat): Option<PlayerId>
    decreases n
  {
    if n == 0 then g.turn
    else
      match NextTurn(g)
      case None => None
      case Some(t) => TurnAfter(g.(turn := Some(t)), n - 1)
  }

  /**
   * In a game of two players with distinct ids whose turn marker names one of
   * them, n moves leave the turn with the same player when n is even and with
   * the other one when n is odd.
   */
  lemma {:induction false} TurnAlternates(g: Game, n: nat)
    requires g.yellow.Some? && g.red.id != g.yellow.value.id
    requires g.turn == Some(g.red.id) || g.turn == Some(g.yellow.value.id)
    ensures TurnAfter(g, n) == if n % 2 == 0 then g.turn else Some(Other(g, g.turn.value))
    decreases n
  {
    if n > 0 {
      var g' := g.(turn := NextTurn(g));
      assert g'.turn == Some(Other(g, g.turn.value));
      TurnAlternates(g', n - 1);
      assert Other(g', g'.turn.value) == g.turn.value;
    }
  }

  /** A move never leaves the turn where it was, and the piece it drops is never EMPTY. */
  lemma MoveFlipsTurn(g: Game)
    requires g.yellow.Some? && g.red.id != g.yellow.value.id
    requires NextTurn(g).Some?
    ensures NextTurn(g) != g.turn
    ensures MoverColour(g) != Empty
    ensures MoverColour(g) == Red <==> NextTurn(g) == Some(g.yellow.value.id)
  {
  }

  /** The player a winning colour names: RED is red, any other colour is yellow. */
  function WinnerOf(g: Game, winner: ConnectCell): Option<Player>
  {
    if winner == Red then Some(g.red) else g.yellow
  }

  /** What `handle_move` writes once the move is applied: GameOver on a win, and SyncGame in any case. */
  function MoveReplies(g: Game, winner: Option<ConnectCell>): Outcome
  {
    var sync := Broadcast(g, SyncGame(g));
    match winner
    case None => sync
    case Some(w) => Then(Broadcast(g, GameOver(g, WinnerOf(g, w))), sync)
  }

  // ------------------------------------------------------------------ steps

  /** The game `handle_connect_request` creates for a new lobby id. */
  function NewGame(gameId: string, red: Player): Game
  {
    Game(Registration, gameId, red, None, None, New(DefaultRows, DefaultCols))
  }

  /**
   * `handle_connect_request` from `addr`: create the lobby with the requester
   * as red, or seat the requester as yellow and start the game, or refuse
   * because both seats are taken.
   */
  ghost predicate ConnectRequestStep(
    games: map<string, Game>, games': map<string, Game>,
    addr: Addr, gameId: string, username: string, freshId: PlayerId, redStarts: bool,
    out: Outcome)
  {
    var p := Player(username, freshId, addr);
    && out.raised.None?
    && if gameId !in games then
         && games' == games[gameId := NewGame(gameId, p)]
         && out.sends == [Send(addr, ConnectResponse(p, NewGame(gameId, p)))]
       else if games[gameId].yellow.None? then
         var g := games[gameId];
         var started := g.(yellow := Some(p), turn := Some(if redStarts then g.red.id else p.id));
         && games' == games[gameId := started]
         && out.sends == [
              Send(addr, ConnectResponse(p, g)),
              Send(g.red.addr, FoundGame), Send(addr, FoundGame),
              Send(g.red.addr, SyncGame(started)), Send(addr, SyncGame(started))]
       else
         && games' == games
         && out.sends == [Send(addr, Error("Game already full"))]
  }

  /**
   * `handle_move` on lobby `gameId`: flip the turn, drop the mover's colour
   * in column `index`, report a win, then send the game to both players.
   * The flip is made on the stored game first, so it stays when `drop_piece`
   * or `check_win` raise.
   */
  ghost predicate MoveStep(
    games: map<string, Game>, games': map<string, Game>,
    gameId: string, index: int,
    drop: (ConnectFour, int, ConnectCell) -> Result<ConnectFour, Exception>,
    checkWin: ConnectFour -> Result<Option<ConnectCell>, Exception>,
    out: Outcome)
  {
    if gameId !in games then
      games' == games && out == Outcome([], Some(KeyError))
    else
      var g := games[gameId];
      match NextTurn(g)
      case None => games' == games && out == Outcome([], Some(AttributeError))
      case Some(t) =>
        var flipped := g.(turn := Some(t));
        match drop(g.board, index, MoverColour(g))
        case Err(e) => games' == games[gameId := flipped] && out == Outcome([], Some(e))
        case Ok(board) =>
          var moved := flipped.(board := board);
          && games' == games[gameId := moved]
          && match checkWin(board)
             case Err(e) => out == Outcome([], Some(e))
             case Ok(winner) => out == MoveReplies(moved, winner)
  }

  /** `self.connections.get(addr)` taken as a condition: an entry holding the empty id counts as none. */
  function RegisteredGame(connections: map<Addr, string>, addr: Addr): Option<string>
  {
    if addr in connections && connections[addr] != "" then Some(connections[addr]) else None
  }

  /**
   * The disconnect branch of `handle_client`: delete the game the address
   * registered for; `del` raises KeyError when that game is already gone.
   * Nothing is written to anyone.
   */
  ghost predicate DisconnectStep(
    games: map<string, Game>, games': map<string, Game>,
    connections: map<Addr, string>, addr: Addr, out: Outcome)
  {
    && out.sends == []
    && match RegisteredGame(connections, addr)
       case None => games' == games && out.raised.None?
       case Some(id) =>
         if id in games then games' == games - {id} && out.raised.None?
         else games' == games && out.raised == Some(KeyError)
  }

  // ------------------------------------------------------------------ what the steps promise

  /**
   * A request to a lobby whose red player waits seats the requester as yellow
   * and hands the first turn to one of the two players; both players hear
   * FoundGame before SyncGame, red before yellow each time.
   */
  lemma JoinStartsGame(
    games: map<string, Game>, games': map<string, Game>,
    addr: Addr, gameId: string, username: string, freshId: PlayerId, redStarts: bool, out: Outcome)
    requires ConnectRequestStep(games, games', addr, gameId, username, freshId, redStarts, out)
    requires gameId in games && games[gameId].yellow.None?
    ensures gameId in games' && games'[gameId].red == games[gameId].red
    ensures games'[gameId].yellow == Some(Player(username, freshId, addr))
    ensures games'[gameId].turn == Some(games[gameId].red.id) || games'[gameId].turn == Some(freshId)
    ensures games'[gameId].board == games[gameId].board
    ensures Recipients(out.sends) == [addr, games[gameId].red.addr, addr, games[gameId].red.addr, addr]
    ensures out.sends[0].packet.ConnectResponse?
    ensures out.sends[1].packet == out.sends[2].packet == FoundGame
    ensures out.sends[3].packet == out.sends[4].packet == SyncGame(games'[gameId])
  {
  }

  /** A request for a new lobby id creates a waiting game on an empty default board, answered to the requester alone. */
  lemma CreateWaitsForOpponent(
    games: map<string, Game>, games': map<string, Game>,
    addr: Addr, gameId: string, username: string, freshId: PlayerId, redStarts: bool, out: Outcome)
    requires ConnectRequestStep(games, games', addr, gameId, username, freshId, redStarts, out)
    requires gameId !in games
    ensures gameId in games' && games'[gameId].red == Player(username, freshId, addr)
    ensures games'[gameId].yellow.None? && games'[gameId].turn.None?
    ensures WellFormed(games'[gameId].board)
    ensures games'[gameId].board.rows == 6 && games'[gameId].board.cols == 7
    ensures forall r, c :: 0 <= r < 6 && 0 <= c < 7 ==> games'[gameId].board.board[r][c] == Empty
    ensures Recipients(out.sends) == [addr]
  {
  }

  /**
   * With both seats taken, a move raises only when `drop_piece` or
   * `check_win` does, and then writes nothing. Otherwise it sends SyncGame of
   * the moved game to red and then yellow, preceded on a win by GameOver to
   * both.
   */
  lemma MoveInFullGame(
    games: map<string, Game>, games': map<string, Game>,
    gameId: string, index: int,
    drop: (ConnectFour, int, ConnectCell) -> Result<ConnectFour, Exception>,
    checkWin: ConnectFour -> Result<Option<ConnectCell>, Exception>,
    out: Outcome)
    requires MoveStep(games, games', gameId, index, drop, checkWin, out)
    requires gameId in games && games[gameId].yellow.Some?
    ensures gameId in games'
    ensures var dropped := drop(games[gameId].board, index, MoverColour(games[gameId]));
      out.raised.None? <==> dropped.Ok? && checkWin(dropped.value).Ok?
    ensures out.raised.Some? ==> out.sends == []
    ensures out.raised.None? ==>
      var red, yellow := games[gameId].red.addr, games[gameId].yellow.value.addr;
      && |out.sends| == (if checkWin(games'[gameId].board).value.Some? then 4 else 2)
      && out.sends[|out.sends| - 2..] == [Send(red, SyncGame(games'[gameId])), Send(yellow, SyncGame(games'[gameId]))]
      && (|out.sends| == 4 ==>
            out.sends[0].to == red && out.sends[1].to == yellow &&
            out.sends[0].packet.GameOver? && out.sends[1].packet.GameOver?)
  {
  }

  /**
   * A move whose `drop_piece` raises has already flipped the turn: the stored
   * game keeps the new turn and the old board, and nobody is sent SyncGame.
   */
  lemma FailedDropKeepsFlip(
    games: map<string, Game>, games': map<string, Game>,
    gameId: string, index: int,
    drop: (ConnectFour, int, ConnectCell) -> Result<ConnectFour, Exception>,
    checkWin: ConnectFour -> Result<Option<ConnectCell>, Exception>,
    out: Outcome)
    requires MoveStep(games, games', gameId, index, drop, checkWin, out)
    requires gameId in games && games[gameId].yellow.Some?
    requires games[gameId].red.id != games[gameId].yellow.value.id
    requires drop(games[gameId].board, index, MoverColour(games[gameId])).Err?
    ensures gameId in games' && games'[gameId].board == games[gameId].board
    ensures games'[gameId].turn == NextTurn(games[gameId]) && games'[gameId].turn != games[gameId].turn
    ensures out.sends == [] && out.raised.Some?
  {
  }

  /** The turn marker after n moves depends only on the players and the turn, not the board. */
  lemma {:induction false} TurnAfterIgnoresBoard(g: Game, h: Game, n: nat)
    requires g.red == h.red && g.yellow == h.yellow && g.turn == h.turn
    ensures TurnAfter(g, n) == TurnAfter(h, n)
    decreases n
  {
    if n > 0 && NextTurn(g).Some? {
      TurnAfterIgnoresBoard(g.(turn := NextTurn(g)), h.(turn := NextTurn(h)), n - 1);
    }
  }

  /**
   * Consecutive `handle_move` steps on a full game, whether or not they
   * raise after the flip, leave its turn marker where TurnAfter says; with two
   * distinct player ids it therefore alternates between the two players.
   */
  lemma {:induction false} MovesAlternateTurn(
    states: seq<map<string, Game>>, outs: seq<Outcome>, gameId: string, indexes: seq<int>,
    drop: (ConnectFour, int, ConnectCell) -> Result<ConnectFour, Exception>,
    checkWin: ConnectFour -> Result<Option<ConnectCell>, Exception>)
    requires |states| == |outs| + 1 && |indexes| == |outs|
    requires gameId in states[0] && states[0][gameId].yellow.Some?
    requires forall i :: 0 <= i < |outs| ==> MoveStep(states[i], states[i + 1], gameId, indexes[i], drop, checkWin, outs[i])
    ensures gameId in states[|outs|]
    ensures states[|outs|][gameId].red == states[0][gameId].red
    ensures states[|outs|][gameId].yellow == states[0][gameId].yellow
    ensures states[|outs|][gameId].turn == TurnAfter(states[0][gameId], |outs|)
    ensures var g := states[0][gameId];
      g.red.id != g.yellow.value.id && (g.turn == Some(g.red.id) || g.turn == Some(g.yellow.value.id)) ==>
        states[|outs|][gameId].turn == if |outs| % 2 == 0 then g.turn else Some(Other(g, g.turn.value))
    decreases |outs|
  {
    var g := states[0][gameId];
    if g.red.id != g.yellow.value.id && (g.turn == Some(g.red.id) || g.turn == Some(g.yellow.value.id)) {
      TurnAlternates(g, |outs|);
    }
    if |outs| > 0 {
      assert MoveStep(states[0], states[1], gameId, indexes[0], drop, checkWin, outs[0]);
      var h := states[1][gameId];
      assert h.red == g.red && h.yellow == g.yellow && h.turn == NextTurn(g);
      MovesAlternateTurn(states[1..], outs[1..], gameId, indexes[1..], drop, checkWin);
      assert states[1..][|outs| - 1] == states[|outs|];
      TurnAfterIgnoresBoard(h, g.(turn := NextTurn(g)), |outs| - 1);
    }
  }

  /**
   * Once both players of a game have dropped, the first disconnect removes the
   * game and the second, whose connection entry still names it, raises KeyError.
   */
  lemma SecondDisconnectRaises(
    games: map<string, Game>, games1: map<string, Game>, games2: map<string, Game>,
    connections: map<Addr, string>, first: Addr, second: Addr, out1: Outcome, out2: Outcome)
    requires DisconnectStep(games, games1, connections, first, out1)
    requires DisconnectStep(games1, games2, connections, second, out2)
    requires RegisteredGame(connections, first).Some? && RegisteredGame(connections, first).value in games
    requires RegisteredGame(connections, second) == RegisteredGame(connections, first)
    ensures games2 == games - {RegisteredGame(connections, first).value}
    ensures out1.raised.None? && out2.raised == Some(KeyError)
  {
  }

  // ------------------------------------------------------------------ the server

  /** ConnectFourServer: the two tables, updated in place by the handlers. */
  class ConnectFourServer {
    /** Lobby id to game. */
    var games: map<string, Game>
    /** Peer address to the lobby id it last asked to join. */
    var connections: map<Addr, string>

    ghost predicate Valid()
      reads this
    {
      GamesValid(games)
    }

    constructor ()
      ensures Valid()
      ensures games == map[] && connections == map[]
    {
      games := map[];
      connections := map[];
    }

    method HandleConnectRequest(addr: Addr, gameId: string, username: string, freshId: PlayerId, redStarts: bool)
      returns (out: Outcome)
      requires Valid()
      modifies this
      ensures Valid()
      ensures connections == old(connections)
      ensures ConnectRequestStep(old(games), games, addr, gameId, username, freshId, redStarts, out)
    {
      var player := Player(username, freshId, addr);
      if gameId !in games {
        games := games[gameId := NewGame(gameId, player)];
        out := Outcome([Send(addr, ConnectResponse(player, games[gameId]))], None);
      } else if games[gameId].yellow.None? {
        var game := games[gameId];
        var response := Send(addr, ConnectResponse(player, game));
        game := game.(yellow := Some(player));
        var found := Broadcast(game, FoundGame);
        game := game.(turn := Some(if redStarts then game.red.id else game.yellow.value.id));
        games := games[gameId := game];
        var synced := Broadcast(game, SyncGame(game));
        out := Outcome([response] + found.sends + synced.sends, None);
      } else {
        out := Outcome([Send(addr, Error("Game already full"))], None);
      }
    }

    /**
     * `handle_sync_game`: an address with no entry is told it is not
     * registered. For a registered one the source calls `send` without a
     * writer, so the step raises (KeyError first if the game is gone).
     */
    method HandleSyncGame(addr: Addr) returns (out: Outcome)
      ensures addr !in connections ==> out == Outcome([Send(addr, Error("Not Registered"))], None)
      ensures addr in connections ==> out.sends == [] && out.raised.Some?
      ensures addr in connections ==> (out.raised == Some(KeyError) <==> connections[addr] !in games)
    {
      if addr !in connections {
        return Outcome([Send(addr, Error("Not Registered"))], None);
      }
      var gameId := connections[addr];
      if gameId !in games {
        return Outcome([], Some(KeyError));
      }
      out := Outcome([], Some(TypeError));
    }

    method HandleMove(
      gameId: string, index: int,
      drop: (ConnectFour, int, ConnectCell) -> Result<ConnectFour, Exception>,
      checkWin: ConnectFour -> Result<Option<ConnectCell>, Exception>)
      returns (out: Outcome)
      requires Valid()
      modifies this
      ensures Valid()
      ensures connections == old(connections)
      ensures MoveStep(old(games), games, gameId, index, drop, checkWin, out)
    {
      if gameId !in games {
        return Outcome([], Some(KeyError));
      }
      var game := games[gameId];
      var colour;
      if game.turn == Some(game.red.id) {
        if game.yellow.None? {
          return Outcome([], Some(AttributeError));
        }
        game := game.(turn := Some(game.yellow.value.id));
        colour := Red;
      } else {
        colour := Yellow;
        game := game.(turn := Some(game.red.id));
      }
      games := games[gameId := game];
      var dropped := drop(game.board, index, colour);
      if dropped.Err? {
        return Outcome([], Some(dropped.error));
      }
      game := game.(board := dropped.value);
      games := games[gameId := game];
      var checked := checkWin(game.board);
      if checked.Err? {
        return Outcome([], Some(checked.error));
      }
      out := Outcome([], None);
      var winner := checked.value;
      if winner.Some? {
        out := Broadcast(game, GameOver(game, WinnerOf(game, winner.value)));
        if out.raised.Some? {
          return;
        }
      }
      var synced := Broadcast(game, SyncGame(game));
      out := Outcome(out.sends + synced.sends, synced.raised);
    }

    /** The disconnect branch of `handle_client`; the connection entry is kept. */
    method Disconnect(addr: Addr) returns (out: Outcome)
      requires Valid()
      modifies this
      ensures Valid()
      ensures connections == old(connections)
      ensures DisconnectStep(old(games), games, connections, addr, out)
    {
      out := Outcome([], None);
      if addr in connections && connections[addr] != "" {
        var gameId := connections[addr];
        if gameId !in games {
          return Outcome([], Some(KeyError));
        }
        games := games - {gameId};
      }
    }

    /**
     * One packet read by `handle_client` from `addr`. A ConnectRequest first
     * files the address under the requested lobby id, whatever the handler
     * then decides; other packets are ignored.
     */
    method Receive(
      addr: Addr, packet: Packet, freshId: PlayerId, redStarts: bool,
      drop: (ConnectFour, int, ConnectCell) -> Result<ConnectFour, Exception>,
      checkWin: ConnectFour -> Result<Option<ConnectCell>, Exception>)
      returns (out: Outcome)
      requires Valid()
      modifies this
      ensures Valid()
      ensures match packet
        case ConnectRequest(gameId, username) =>
          && connections == old(connections)[addr := gameId]
          && ConnectRequestStep(old(games), games, addr, gameId, username, freshId, redStarts, out)
        case SyncGame(_) =>
          && connections == old(connections) && games == old(games)
          && (addr !in connections ==> out == Outcome([Send(addr, Error("Not Registered"))], None))
          && (addr in connections ==> out.sends == [] && out.raised.Some?)
        case Move(gameId, index, _) =>
          && connections == old(connections)
          && MoveStep(old(games), games, gameId, index, drop, checkWin, out)
        case _ =>
          connections == old(connections) && games == old(games) && out == Outcome([], None)
    {
      match packet {
        case ConnectRequest(gameId, username) =>
          connections := connections[addr := gameId];
          out := HandleConnectRequest(addr, gameId, username, freshId, redStarts);
        case SyncGame(_) =>
          out := HandleSyncGame(addr);
        case Move(gameId, index, _) =>
          out := HandleMove(gameId, index, drop, checkWin);
        case _ =>
          out := Outcome([], None);
      }
    }
  }

  /**
   * Two players meet in lobby "L1", a third is turned away, and the lobby goes
   * when one of them leaves; the other's later disconnect then raises.
   */
  method MatchmakingScenario(
    drop: (ConnectFour, int, ConnectCell) -> Result<ConnectFour, Exception>,
    checkWin: ConnectFour -> Result<Option<ConnectCell>, Exception>)
  {
    var server := new ConnectFourServer();
    var alice, bob, carol := Addr("alice-host", 1), Addr("bob-host", 2), Addr("carol-host", 3);

    var out := server.Receive(alice, ConnectRequest("L1", "alice"), 1, true, drop, checkWin);
    assert server.games["L1"].red.name == "alice" && server.games["L1"].yellow.None?;
    assert out.sends == [Send(alice, ConnectResponse(Player("alice", 1, alice), server.games["L1"]))];

    out := server.Receive(bob, ConnectRequest("L1", "bob"), 2, false, drop, checkWin);
    assert server.games["L1"].turn == Some(2);
    assert out.sends[1] == Send(alice, FoundGame) && out.sends[2] == Send(bob, FoundGame);

    out := server.Receive(carol, ConnectRequest("L1", "carol"), 3, true, drop, checkWin);
    assert out.sends == [Send(carol, Error("Game already full"))];
    assert server.connections[carol] == "L1";

    out := server.Disconnect(bob);
    assert "L1" !in server.games;
    out := server.Disconnect(alice);
    assert out.raised == Some(KeyError);
  }
}
