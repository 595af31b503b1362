# Networked tic-tac-toe match engine, modelled in Dafny

This project models the match engine of a two-player networked tic-tac-toe
server. The server pairs two connections into one game. The first connection
plays X and the second plays O. Each player has a handler that reads commands
(`MOVE <n>`, `QUIT`) and writes text lines back. The two handlers share the
game, a nine-slot board and the player whose turn it is, and the one operation
that changes it is the synchronized move check `canMove`. They also share each
other's output: inside `canMove` the mover's thread writes the move news and
verdict to the opponent's stream, which the opponent's own thread writes too.

The model is functional. It has four modules:

- `Board` (`board.dfy`) holds the marks, cells, nine-cell grids and the eight
  winning lines. It models the server's hand-written winner test, `GameWinner`,
  and the scanning `BoardFilledUp` method. It also defines cell counts.
- `Game` (`game.dfy`) holds the game state (board plus turn) and the initial
  state, an empty board with X to move. It models `CanMove` as one atomic step,
  and `Play` and `Movers` over a run of move requests. It proves the
  reachability invariants.
- `Handler` (`handler.dfy`) holds the lines one handler writes: the greeting,
  the reply to a move for the mover and for the opponent, and the effect of
  `QUIT` and of other lines. It also holds the text form of a location and of a
  status message.
- `Session` (`session.dfy`) runs two handlers over one shared game. Commands
  arrive from either player, one at a time, in any interleaving. The module
  tracks what each player has been sent and whether each handler has quit.

In ordinary tic-tac-toe the game ends at the first completed line, so at most
one player ever owns a line. The server does not enforce this, and the model
follows the code:

- A handler leaves its read loop only on `QUIT` (Server.java:168-185). It does
  not leave on `VICTORY`, `DEFEAT` or `TIE` (`Handler.HandleCommand`). Ending
  the game is up to the client, which stops reading after a verdict and sends
  `QUIT` (Client.java:153-169).
- `canMove` never consults the winner test (Server.java:95-104), so moves are
  still accepted after a win, and both players can end up owning a line
  (`Game.BothMayOwnLines`). The one-winner property holds only under an
  assumption about play: that no move request is sent once the winner test
  holds (`Game.PlayUntilWinHasOneWinner`). The client does not guarantee this.
  It sends `MOVE <n>` from its mouse listener (Client.java:91-96), apart from
  the loop that reads the verdict, so a click made before the verdict is read
  can still be accepted and complete a second line.
- The server's winner test says only that *some* line is complete, not whose it
  is. The mover is told `VICTORY` whenever any line is complete, even when the
  line belongs to the opponent (`Handler.VictoryAfterWinGoesToMover`). On a
  board where nobody had won yet, `VICTORY` does go to the player who completed
  the line (`Handler.FirstVictoryIsDeserved`).

## Model

| member | source | states |
|---|---|---|
| Board.Opponent | MabryDillonTicTacToeGUI/src/Server.java:35-36 | each player's opponent is the other player |
| Board.MarkCases | MabryDillonTicTacToeGUI/src/Server.java:35-36 | there are exactly two marks, and each is the other's opponent, as the two players are wired to each other |
| Board.GameWinnerIffSomeLine | MabryDillonTicTacToeGUI/src/Server.java:64-73 | the winner test `Board.GameWinner`, written clause by clause as in the source, holds exactly when X or O owns all three cells of some row, column or diagonal (both directions) |
| Board.LineIsWin | MabryDillonTicTacToeGUI/src/Server.java:64-73 | any completed line makes the winner test true |
| Board.BoardFilledUp | MabryDillonTicTacToeGUI/src/Server.java:77-84 | the scan that stops at the first empty slot answers true exactly when no slot is empty, i.e. when the count of empty slots is zero |
| Board.FullIffNineOccupied | MabryDillonTicTacToeGUI/src/Server.java:77-84 | the board is full exactly when all nine slots are occupied |
| Board.CountPositive | MabryDillonTicTacToeGUI/src/Server.java:78-82 | a cell value has a positive count exactly when some slot holds it |
| Board.CountPartition | MabryDillonTicTacToeGUI/src/Server.java:55-57 | every slot is unowned or owned by X or by O: the three counts add up to the board size |
| Board.CountUpdate | MabryDillonTicTacToeGUI/src/Server.java:97 | claiming a slot moves one unit of count from the old value to the new one and leaves all other counts unchanged |
| Game.CanMove | MabryDillonTicTacToeGUI/src/Server.java:95-104 | a move is accepted iff the requester holds the turn and the slot is empty. On acceptance the slot becomes the mover's, every other slot is unchanged, and the turn passes to the opponent. A rejection changes neither board nor turn |
| Game.MoveOccupiesOne | MabryDillonTicTacToeGUI/src/Server.java:96-97 | an accepted move occupies exactly one more slot, a rejected one none, and an owned slot never changes owner |
| Game.MovePreservesCountInv | MabryDillonTicTacToeGUI/src/Server.java:95-100 | every request keeps the balance: #X == #O when X is to move, #X == #O + 1 when O is to move |
| Game.SameSlotOnce | MabryDillonTicTacToeGUI/src/Server.java:96-97 | two successive requests for the same slot, from anyone, are never both accepted; when the two different players both request an empty slot, exactly one of them is accepted |
| Game.MoveWinsOnlyForMover | MabryDillonTicTacToeGUI/src/Server.java:96-97 | after a move, any player other than the mover who owns a line already owned it before the move |
| Game.FirstWinIsMovers | MabryDillonTicTacToeGUI/src/Server.java:95-100 | an accepted move that turns a board with no winner into one that passes the winner test completed a line of the mover's and none of the opponent's |
| Game.PlayAlternates | MabryDillonTicTacToeGUI/src/Server.java:95-100 | over any run of requests, accepted moves alternate starting with the turn holder, and the final turn has advanced once per accepted move |
| Game.PlayOccupies | MabryDillonTicTacToeGUI/src/Server.java:96-97 | over any run, owned slots keep their owner, and the occupied count grows by exactly the number of accepted moves |
| Game.PlayPreservesCountInv | MabryDillonTicTacToeGUI/src/Server.java:95-100 | over any run, the piece-count balance is preserved |
| Game.Reachable | MabryDillonTicTacToeGUI/src/Server.java:29-38 | from an empty board with X to move, every reachable state satisfies the piece-count balance, #X + #O equals the number of accepted moves, accepted moves go X, O, X, ..., and at most nine are accepted |
| Game.PlayUntilWinHasOneWinner | MabryDillonTicTacToeGUI/src/Server.java:95-104 | assuming no request is sent once the winner test holds, at most one player ever owns a completed line; the move check itself does not ensure this |
| Game.BothMayOwnLines | MabryDillonTicTacToeGUI/src/Server.java:95-104 | because acceptance ignores the winner test, six accepted moves from the start leave both X and O owning a line |
| Handler.MessageRoundTrip | MabryDillonTicTacToeGUI/src/Client.java:165-166 | a status line carries the `MESSAGE ` tag, and the text after its eight characters is exactly the message text |
| Handler.GreetingNamesMark | MabryDillonTicTacToeGUI/src/Server.java:129-165 | of the lines `Handler.Greeting` sends, the first line is `HELLO ` followed by the mark, which the client reads at index 6. Only the player who holds the first turn is told to move |
| Handler.LocTextRoundTrip | MabryDillonTicTacToeGUI/src/Server.java:148 | the location text `Handler.LocText` written after `OPPONENT_MOVED ` is one digit 0..8 and parses back to the same location |
| Handler.ParseLocCanonical | MabryDillonTicTacToeGUI/src/Client.java:143-144 | any text the location parser accepts is the canonical text of the location it yields |
| Handler.VerdictsAgree | MabryDillonTicTacToeGUI/src/Server.java:147-177 | for the verdict functions `Handler.MoverVerdict` and `Handler.OpponentVerdict` read on the same board, the mover gets VICTORY iff the opponent gets DEFEAT, and TIE (or an empty line) goes to both or neither. VICTORY means some line is complete; TIE means the board is full with no complete line |
| Handler.HandleMove | MabryDillonTicTacToeGUI/src/Server.java:95-180 | the reply to `MOVE` (lines 170-180), with the opponent's lines written by `otherPlayerMoved` (lines 147-151) from inside `canMove` (line 99): an accepted move sends the mover `CAN_MOVE` and a VICTORY/TIE/empty verdict, and sends the opponent `OPPONENT_MOVED` with exactly the accepted location and a DEFEAT/TIE/empty verdict. Both verdicts are read on the post-move board. A rejected move sends only `MESSAGE Cannot Move` to the requester and changes nothing |
| Handler.RepliesAgree | MabryDillonTicTacToeGUI/src/Server.java:149-177 | after an accepted move, the mover is sent VICTORY exactly when the opponent is sent DEFEAT, and TIE (or the empty line) is sent to both or neither |
| Handler.FirstVictoryIsDeserved | MabryDillonTicTacToeGUI/src/Server.java:173-177 | on a board nobody had won, VICTORY to the mover comes with DEFEAT to the opponent, and the mover owns a line while the opponent owns none |
| Handler.VictoryAfterWinGoesToMover | MabryDillonTicTacToeGUI/src/Server.java:173-177 | after X has won, O's next move is still accepted, and O is told VICTORY without owning any line |
| Handler.HandleCommand | MabryDillonTicTacToeGUI/src/Server.java:168-185 | only QUIT ends the read loop. A move is answered as above, and QUIT or any other line produces no output and leaves the game unchanged |
| Session.Deliver | MabryDillonTicTacToeGUI/src/Server.java:168-185 | a handler that has quit reads nothing more. Otherwise the sender gets its reply lines and the opponent gets its lines, appended to what each was sent before, and only the sender's quit flag may change |
| Session.RunIsPlay | MabryDillonTicTacToeGUI/src/Server.java:95-104 | the game after any interleaving of both players' commands is the game played by the move requests that reached it, so the board changes only through the move operation |
| Session.SessionCountInv | MabryDillonTicTacToeGUI/src/Server.java:29-40 | from a new match, any interleaving of commands keeps the piece-count balance |
| Session.ReplyReports | MabryDillonTicTacToeGUI/src/Server.java:147-179 | one command's replies tell the mover one acknowledgement per accepted move and no move news, and tell the opponent the accepted location and no acknowledgement |
| Session.DeliverReports | MabryDillonTicTacToeGUI/src/Server.java:147-179 | one delivered command adds its accepted location, if any, to the opponent's move news and one acknowledgement to the mover's lines, and nothing else |
| Session.OpponentSeesEveryMove | MabryDillonTicTacToeGUI/src/Server.java:95-151 | over any run, the move news a player receives grows by exactly the opponent's accepted locations, in order, and the opponent's acknowledgements grow by the same number |
| Session.ViewsAgree | MabryDillonTicTacToeGUI/src/Server.java:122-174 | from the start of a match, the moves reported to a player are exactly the opponent's accepted moves, and their number equals the `CAN_MOVE` lines the opponent got |
| Session.QuitIsFinal | MabryDillonTicTacToeGUI/src/Server.java:181-182 | once a handler has quit it stays out of the loop, and no move of that player reaches the game any more |

## Left out

- Sockets, the listening port, reader and writer streams, and closing sockets in `finally`. These are I/O. The model records the lines written to each player as sequences of strings, and does not model a write to a closed connection.
- Threads and the `synchronized` monitor. Each command is one indivisible step, and a session is any interleaving of the two players' commands.
- The mover's verdict is computed after `canMove` returns, outside the lock. Under real concurrency the opponent could move in between. The model reads both verdicts on the same post-move board.
- Order of lines on one stream: the opponent's `OPPONENT_MOVED` and verdict are written by the mover's thread inside `canMove`, while the mover's own `CAN_MOVE` and verdict are written after `canMove` returns. Under real concurrency the news of the opponent's next move can reach the mover's stream before, or between, those two lines. `Session.Deliver` appends each command's lines to each stream as one block.
- Of the greeting lines, `HELLO <mark>` and the waiting notice come from the `Player` constructor, on the accepting thread, before either handler thread starts. The connected notice and the your-move notice are written by each handler thread when it starts. Under real concurrency only those two can interleave with move news from the other thread. The model sends every greeting line before any command.
- Parsing `MOVE <n>`: commands arrive already classified (`Handler.Command`), with the location in 0..8 by type. In the server, an out-of-range number from the player who does not hold the turn is rejected with `MESSAGE Cannot Move`, because the turn test fails first and the board is never indexed, and the handler keeps reading. The same number from the turn holder throws when the board is indexed, before anything changes, and ends that handler thread. An unparsable number, or a closed stream (a null line), also ends the handler thread with an exception. The model covers none of these out-of-range or unparsable inputs.
- Handler.ParseLoc: models the client's `Integer.parseInt` only on the one-digit texts the server writes. It refuses signs, leading zeros and multi-digit numbers.
- The unbounded accept loop in `main`, console logging, and the whole Swing client except the lines it reads from the server.
