# Connect Four server core, modelled in Dafny

This project models two parts of a networked two-player Connect Four game.

- **The board and its compact serialiser** (`src/lib/connect_four.py`), in
  `connect_four.dfy`. It covers the three-valued cell `ConnectCell` with its
  codes and display markup, and the `rows × cols` board `ConnectFour`. It
  also covers `pack`, which writes a two-byte header (rows, cols) and then one
  byte per cell in row-major order as a hex string. `unpack` reads that string
  back. `Pack` and `Unpack` are methods with the source's nested loops. They
  are proved equal to the specification functions `Packed`/`Hex` and
  `Unpacked`/`Decode`. Lemmas then prove the layout, the round trip, the
  offsets read, and the failure cases of those functions.
- **The server's matchmaking and turn state machine** (`ConnectFourServer` in
  `src/server.py`), in `server.dfy`, with the records and packets in
  `data.dfy`. The class keeps the two tables of the source: `games`, from lobby
  id to `Game`, and `connections`, from peer address to lobby id. Each handler
  is a method that runs as one atomic step. It updates the tables and returns
  an `Outcome`: the packets written, in order, each addressed to a peer. The
  outcome also carries the Python exception, if any, that ends the client's
  task. The effect of each step is a predicate over the old tables, the new
  tables and the outcome: `ConnectRequestStep`, `MoveStep` or
  `DisconnectStep`. Lemmas derive from these predicates the properties the
  game relies on.

Inputs the source takes from its environment are parameters. `drop_piece`
and `check_win` are called by the server, but `src/lib/connect_four.py` does
not define them. The handlers take them as the functions `drop` and
`checkWin`. Each either returns a result or raises an exception. Nothing is
assumed about gravity, winning lines or which columns are accepted.
`uuid.uuid4()` is the parameter `freshId`. `random.choice` between the two
player ids is the flag `redStarts`.

The model follows the code where the code does less than the game's intended
protocol:
- `handle_move` never checks who sent the move, nor the column.
- A win does not remove the game, and SyncGame is still broadcast after
  GameOver.
- A disconnect deletes the game and sends nothing: no ConnectionLost packet
  is written, and the `connections` entry stays.
- `GameState` never leaves REGISTRATION.
- `src/lib/data.py:23` declares `turn` as a `bool`, but the server stores a
  player id there or None. The model's `turn` is `Option<PlayerId>`.

## Model

| member | source | states |
|---|---|---|
| `ConnectFourBoard.Code` | src/lib/connect_four.py:6-9 | The enum values: EMPTY is 0, RED is 1 and YELLOW is 2, each exactly. These are the bytes `pack` writes at line 39. |
| `ConnectFourBoard.FromCode` | src/lib/connect_four.py:6-9 | Lookup by value succeeds exactly for 0, 1 and 2, and gives back the cell whose code is that value. |
| `ConnectFourBoard.CodeRoundTrip` | src/lib/connect_four.py:6-9 | Looking a cell up by its own code returns that cell. |
| `ConnectFourBoard.Emoji` | src/lib/connect_four.py:11-18 | EMPTY, and only EMPTY, is shown as a blank. RED and YELLOW are shown as `:name:` markup. |
| `ConnectFourBoard.EmojiDistinguishes` | src/lib/connect_four.py:11-18 | Two cells have the same markup only if they are the same cell. |
| `ConnectFourBoard.New` | src/lib/connect_four.py:24-30 | A new board keeps rows and cols. It has `range(rows)` rows of `range(cols)` cells, all EMPTY. It is well formed when both are non-negative. |
| `ConnectFourBoard.CellBytes` | src/lib/connect_four.py:37-39 | Every cell byte `pack` writes is a cell code (at most 2). |
| `ConnectFourBoard.Hex` | src/lib/connect_four.py:41 | The hex text has two digits per byte. |
| `ConnectFourBoard.HexAt` | src/lib/connect_four.py:41 | Digits 2i and 2i+1 of the hex text spell byte i, high nibble first. |
| `ConnectFourBoard.FromHex` | src/lib/connect_four.py:45 | A successful parse yields at most half as many bytes as the text has characters. |
| `ConnectFourBoard.HexRoundTrip` | src/lib/connect_four.py:41-45 | Parsing the hex text of any byte string gives that byte string back. |
| `ConnectFourBoard.PackLength` | src/lib/connect_four.py:33-41 | For a well-formed board, byte 0 is rows and byte 1 is cols. There are `2 + rows*cols` bytes, so the hex string has length `2*(2 + rows*cols)`. |
| `ConnectFourBoard.PackLayout` | src/lib/connect_four.py:37-39 | Byte `2 + row*cols + col` of the packed bytes is the code of cell (row, col). |
| `ConnectFourBoard.Pack` | src/lib/connect_four.py:32-41 | Packing succeeds exactly when rows and cols fit the one-byte header (0..255); otherwise it fails as `struct.pack` does. On success the result is the hex text of the header followed by the cells of every row in order. The board is a value and is left unchanged. |
| `ConnectFourBoard.FirstBadCell` | src/lib/connect_four.py:49-52 | Scanning cells in row-major order reports nothing exactly when every cell byte is present and a cell code. Otherwise it reports the first missing byte (ShortCells) or invalid byte (InvalidCell) at its offset, and every cell before it is valid. |
| `ConnectFourBoard.Decode` | src/lib/connect_four.py:46-54 | Fewer than two bytes fail on the header. Decoding succeeds exactly when every cell byte `2 .. 2 + rows*cols - 1` is present and is 0, 1 or 2. The result has the header's rows and cols and is well formed. |
| `ConnectFourBoard.Unpacked` | src/lib/connect_four.py:44-46 | `unpack` fails with InvalidHex exactly when the text is not valid hex. |
| `ConnectFourBoard.DecodeReadsCellOffset` | src/lib/connect_four.py:49-52 | In a successful unpack, cell (row, col) is the cell whose code is the byte at offset `2 + row*cols + col`. |
| `ConnectFourBoard.DecodeIgnoresTrailing` | src/lib/connect_four.py:49-52 | Bytes after the last cell do not change the result, success or failure. |
| `ConnectFourBoard.Unpack` | src/lib/connect_four.py:43-54 | The method's loops create a fresh board of the header's size and overwrite it cell by cell. They return exactly `Unpacked(value)`, including which error is raised first. |
| `ConnectFourBoard.PackUnpackRoundTrip` | src/tests/test_connect_four.py:25-42 | Unpacking the packed text of any well-formed board whose dimensions fit the header gives back that board: same rows, same cols, same cell at every (row, col). |
| `ConnectFourBoard.NewBoardRoundTrip` | src/tests/test_connect_four.py:44-56 | A fresh all-EMPTY board survives the round trip unchanged. |
| `Server.Broadcast` | src/server.py:50-53 | A broadcast goes to red and then to yellow, every write carrying the same packet. With no yellow player, red is written to and then AttributeError is raised. |
| `Server.TurnAlternates` | src/server.py:125-130 | With two players of distinct ids and the turn held by one of them, after n moves the turn is back with that player if n is even. If n is odd it is with the other player. |
| `Server.MoveFlipsTurn` | src/server.py:125-130 | A move whose turn flip does not raise AttributeError always changes the turn and drops RED or YELLOW, never EMPTY. It drops RED exactly when the turn passes to yellow. |
| `Server.CreateWaitsForOpponent` | src/server.py:92-101 | For an unknown lobby id, the requester becomes red. There is no yellow player and the turn is unset. The board is a fresh all-EMPTY 6×7 board. Only the requester is answered. |
| `Server.JoinStartsGame` | src/server.py:102-109 | When red is waiting, the requester becomes yellow and the board is untouched. The turn goes to red's id or to the requester's. The requester gets ConnectResponse. Then red and the requester get FoundGame, then SyncGame of the started game, red first each time. |
| `Server.MoveInFullGame` | src/server.py:132-138 | With both seats filled, a move raises exactly when `drop_piece` or `check_win` raises, and then it writes nothing. Otherwise it ends with SyncGame of the moved game to red and then yellow. On a win, GameOver to red and then yellow comes first. |
| `Server.FailedDropKeepsFlip` | src/server.py:125-132 | When `drop_piece` raises, the turn flip already made on the stored game stays. The board is unchanged, and no SyncGame is sent. |
| `Server.MovesAlternateTurn` | src/server.py:122-138 | Over any run of consecutive moves on a full game, including moves that raise after the flip, the players and the turn marker follow `TurnAfter`. With distinct ids, the turn is back with its first holder after an even number of moves and with the other player after an odd number. |
| `Server.SecondDisconnectRaises` | src/server.py:62-70 | When both players of a game disconnect, the first disconnect deletes the game. The second finds its connection entry still naming the game and raises KeyError. |
| `Server.ConnectFourServer.constructor` | src/server.py:26-31 | The server starts with both tables empty. |
| `Server.ConnectFourServer.HandleConnectRequest` | src/server.py:83-111 | The step creates the game, seats yellow and starts the game, or answers "Game already full" and leaves the tables unchanged. It never raises. The `connections` table is untouched. |
| `Server.ConnectFourServer.HandleSyncGame` | src/server.py:113-120 | An address with no `connections` entry gets Error("Not Registered") and nothing else. A registered one gets no reply and the step raises: KeyError exactly when its game is gone. |
| `Server.ConnectFourServer.HandleMove` | src/server.py:122-138 | An unknown lobby id raises KeyError and changes nothing. When the turn is red's but there is no yellow player, AttributeError is raised before any change. Otherwise the turn flips (`NextTurn`) and the colour `MoverColour` names is dropped. A raise from `drop_piece` or `check_win` ends the step with no writes, and the flip is kept. Otherwise GameOver for the player `WinnerOf` names (on a win) and SyncGame are broadcast. The turn marker keeps naming a player of the game. |
| `Server.ConnectFourServer.Disconnect` | src/server.py:62-70 | The game named by the address's non-empty `connections` entry (`RegisteredGame`, line 67) is deleted, or KeyError is raised if it is already gone. The entry itself is kept. Nothing is written. |
| `Server.ConnectFourServer.Receive` | src/server.py:55-81 | A ConnectRequest first sets `connections[addr]` to the requested lobby id, even when it is then refused, and then runs the connect step. SyncGame and Move go to their handlers. Any other packet changes nothing. |

## Left out

- `drop_piece` and `check_win` are called by the server, but `src/lib/connect_four.py` does not define them. They are not part of this model. The move step takes them as the parameters `drop` and `checkWin`, which return a new board or a winner, or raise.
- `Server.ConnectFourServer.HandleMove`: a `drop_piece` call that raises is taken to leave the board as it was. The in-place changes it might make before raising are not captured.
- Asyncio stream I/O is not modelled: `get_packet`, the socket side of `send`, `writer.close`/`wait_closed`, `start_server`, `main`, argument parsing and logging setup. A handler's writes are the `Send` values it returns.
- Concurrency between `handle_client` tasks is not modelled: each handler runs as one atomic step. What happens to a task after an exception is not modelled either: the step only reports the exception.
- JSON encoding and decoding of packets is not modelled. The packet classes are not part of this model; `Packet` is a datatype with one constructor per packet the server reads or writes.
- Pydantic validation of the records is not modelled. For example, `data.py` declares `turn` as a `bool`, but the model stores player ids there.
- `random.choice` and `uuid.uuid4` are parameters. Fresh ids are not assumed to differ from existing ones. The lemmas that need distinct ids require them.
- The `Game` record and its board are values in the `games` table, and updates reassign the table entry. Sharing of the one Python `Game` object between the table and packets is not captured. The packets carry the game as it stood when they were written, which is when the source serialises them.
- `Server.ConnectFourServer.HandleSyncGame`: only the raise of a registered client is modelled. The source calls `send` without a writer there, so the intended SyncGame reply is never sent.
- `ConnectFourBoard.Emoji`: the contract states only that EMPTY is a blank and that RED and YELLOW use `:name:` markup. The exact strings are in the function's body.
- `ConnectFourBoard.FromHex`: its contract gives only a size bound. Its agreement with `hex()` is what `HexRoundTrip` proves, for text that `hex()` produced.
- `__rich__` and all client programs (`client.py`, `client_text.py`, `client_tui.py`, `client_test.py`) are not modelled; they are display code and console or network I/O.
