/**
 * The records the server keeps and sends (src/lib/data.py) and the packets
 * it exchanges with clients, as plain values.
 */
module Data {
  import opened Wrappers
  import opened ConnectFourBoard

  /** A peer address as `writer.get_extra_info("peername")` gives it: (host, port). */
  datatype Addr = Addr(host: string, port: int)

  /** A player id, a 128-bit UUID. */
  type PlayerId = x: int | 0 <= x < 0x1_0000_0000_0000_0000_0000_0000_0000_0000

  /** Player: display name, id and the address its connection is known by. */
  datatype Player = Player(name: string, id: PlayerId, addr: Addr)

  /** GameState: a game is created in REGISTRATION; the server never changes it. */
  datatype GameState = Registration | Disconnected

  /**
   * Game: the lobby id, the red player (the first registrant), the yellow
   * player once one has joined, the id of the player whose turn it is once
   * play has started, and the board.
   */
  datatype Game = Game(
    state: GameState,
    gameId: string,
    red: Player,
    yellow: Option<Player>,
    turn: Option<PlayerId>,
    board: ConnectFour)

  /** The packets the server reads and writes, one constructor per packet class. */
  datatype Packet =
    | ConnectRequest(gameId: string, username: string)
    | ConnectResponse(player: Player, game: Game)
    | Error(message: string)
    | FoundGame
    | SyncGame(game: Game)
    | Move(gameId: string, index: int, player: Player)
    | GameOver(game: Game, winner: Option<Player>)

  /** One write of a packet to the connection of the peer at `to`. */
  datatype Send = Send(to: Addr, packet: Packet)
}
