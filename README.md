# Coin collector: a Dafny model

This project models the core of a small two-player "coin collector" game and of
the single-player console prototype it grew from.

- **Server** (`server/server_main.cpp`). The server owns a `GameState`: two
  players and a coin on a 10 x 20 grid. It runs a `select` loop that does three
  things. It admits at most two connections. It reads one command byte per
  ready client once both are connected. It applies each byte as a move and
  then sends every client the state, framed for that client as a line of eight
  integers.
- **Client** (`client/client_main.cpp`). The client's network thread parses
  the received buffers into three entities and two scores. Its main loop maps
  key presses to command bytes.
- **Prototype** (`coin-collect/Source.cpp`). The prototype is a console game
  on a 20 x 10 board. The WASD keys move the player, a coin is worth 10
  points, and the player is clamped to the walls.

The model has one module per part of the program, plus two shared modules:

- `ServerGame` (`server_game.dfy`) holds the game state. The value `Game` and
  the functions `Initial`, `Moved`, `Respawn`, `View` and `Serialize` are the
  specification. The class `GameState` is the object the server mutates, and
  each of its methods is proved against those functions.
- `ServerLoop` (`server_loop.dfy`) holds the connection registry (`clients`,
  `playerMap`, `gameStarted`) and the body of the `select` loop.
  - `Connect`, `Input`, `Serve` and `RunRound` specify one ready socket and
    one round.
  - The class `Server` holds the loop's variables in fields, and its methods
    are proved against those functions.
- `Wire` (`wire.dfy`) is the text of a state line. It covers how the server
  writes it (`to_string` joined by spaces, ended by a newline). It also covers
  how the client reads it back (eight `stringstream >> int` extractions from a
  buffer read as a C string). The two are tied by a round-trip lemma.
- `Client` (`client.dfy`) models the client's entities and network-thread
  globals as classes (`Entity`, `Receiver`), each method proved against a
  function on a `Screen` value. It also models the key-to-command mapping and
  one pass of event polling.
- `CoinCollect` (`coin_collect.dfy`) turns the prototype's four globals into
  the fields of the class `Console`. `Setup`, `Input`, `Logic` and the main
  loop are proved against the functions `SetUp`, `Pressed`, `Collected` and
  `Played`.
- `Options` (`options.dfy`) is the `Option` type.

Outside input becomes a parameter:

- A `Draw` or a `Roll` stands for a pair of `rand()` results.
- A `Ready` event stands for one socket that `select` reported. It carries
  the handle `accept` returned, or the byte `recv` returned, or `None` for a
  closed connection.
- An `Event` stands for what `SDL_PollEvent` returned.
- An `Option<char>` stands for the prototype's `_kbhit`/`_getch` pair.

The rejection loop of `spawnCoin` only ends if `rand()` eventually names a free
cell. The model therefore asks of the draws that they name three different
cells (`ThreeDistinctCells`). Two players cannot cover three cells, so a free
one exists.

The model follows what the code does in four places where a reader might
expect otherwise:

- `decode` maps every byte other than 'D', 'L' and 'R' to "up". So a stray
  byte is a move up followed by a broadcast, not an ignored byte.
- 'E' or 'e' from a client only `break`s the `for` over the ready sockets of
  the current round. The game and the registry stay unchanged, and the outer
  `while (true)` goes on.
- The slot of a new connection depends on `clients.size()` after the push.
  Suppose the first player's connection closes and a new one arrives. Then
  both connected sockets control the second player, and nobody controls the
  first (`ReconnectSharesSlot`).
- Before the match starts, a ready client socket is not read at all, so its
  byte stays pending (`WaitingIgnoresInput`).

## Model

| member | source | states |
|---|---|---|
| Wire.NatToDecimalDenotes | server/server_main.cpp:87-90 | `to_string` of a non-negative number is a non-empty run of decimal digits whose value is that number |
| Wire.IntToDecimalShape | server/server_main.cpp:87-90 | `to_string` of any integer is non-empty and all digits, except for a '-' in first place, which appears exactly for a negative number |
| Wire.LineShape | server/server_main.cpp:87-90 | a serialized state line is exactly one line: it ends in a newline, holds no earlier newline and no NUL |
| Wire.CString | client/client_main.cpp:153-154 | the text `stringstream` sees is the prefix of the buffer before the first NUL, and the whole buffer when there is none |
| Wire.SkipSpace | client/client_main.cpp:156 | an extraction skips exactly the leading white space: what is left is a suffix that starts with no white space |
| Wire.DigitRun | client/client_main.cpp:156 | the digits an extraction consumes are the longest run of digits at the front |
| Wire.ReadInt | client/client_main.cpp:156 | a successful `>> int` yields a value inside the 32-bit `int` range and consumes at least one character |
| Wire.ReadInts | client/client_main.cpp:156 | a chain of `n` extractions succeeds with exactly `n` values, each inside the `int` range |
| Wire.ParseFormat | client/client_main.cpp:154-156 | parsing the line written for any update whose fields fit an `int` gives back that update, field by field |
| Wire.ParseRejectsText | client/client_main.cpp:154-156 | a buffer whose first token does not start with a sign or a digit, or that is only white space, does not parse |
| ServerGame.Displace | server/server_main.cpp:59-65 | a step changes exactly one coordinate by one: up and down change the row, left and right the column, each in its own sense |
| ServerGame.Cell | server/server_main.cpp:54 | `rand() % HEIGHT`, `rand() % WIDTH` always names a cell of the grid |
| ServerGame.Respawn | server/server_main.cpp:51-56 | the rejection loop leaves the coin on neither player; a coin already free stays put; a moved coin is on the grid |
| ServerGame.RespawnFirstFree | server/server_main.cpp:51-56 | a coin that must move lands on the first drawn cell that is free, and every earlier draw was occupied |
| ServerGame.ThreeCellsHaveFree | server/server_main.cpp:53-54 | among three different drawn cells one is free of both players, so the rejection loop ends |
| ServerGame.Initial | server/server_main.cpp:44-49 | the first player starts at (0, 0), the second at (HEIGHT-1, WIDTH-1), both with score 0, and the state invariant holds |
| ServerGame.MoveOutcome | server/server_main.cpp:58-81 | a move off the grid or onto a player changes nothing; otherwise the mover reaches the target and the other player is untouched; the mover gains 10 and the coin respawns on a free cell exactly when the target held the coin |
| ServerGame.MovePreservesInv | server/server_main.cpp:58-81 | every move keeps both players and the coin on the grid on three different cells, with scores non-negative multiples of 10 |
| ServerGame.ViewsMirror | server/server_main.cpp:83-91 | the two recipients get mirror images: each one's own fields are the other's opponent fields, and the coin is the same |
| ServerGame.SerializeParses | server/server_main.cpp:83-91 | the line sent to a recipient parses, at the client, to that recipient's own view: itself, the other player, the coin, the two scores |
| ServerGame.Decode | server/server_main.cpp:94-102 | 'D', 'L' and 'R' decode to down, left and right; every other byte decodes to up |
| ServerGame.GameState.constructor | server/server_main.cpp:44-49 | the constructed state is `Initial(draws)` |
| ServerGame.GameState.SpawnCoin | server/server_main.cpp:51-56 | the loop leaves the coin where `Respawn` says |
| ServerGame.GameState.MovePlayer | server/server_main.cpp:58-81 | the state after the call is `Moved` of the state before |
| ServerLoop.InitialState | server/server_main.cpp:157-160 | the loop starts with no clients, an empty slot map, the match not started, and a valid game |
| ServerLoop.IndexOf | server/server_main.cpp:215 | `find` gives the first position of the socket in the clients |
| ServerLoop.Find | server/server_main.cpp:215 | the search loop returns the first position of the socket |
| ServerLoop.FirstOccurrence | server/server_main.cpp:215 | a first position is unique, so `Find` and `IndexOf` agree |
| ServerLoop.AdmitKeepsInv | server/server_main.cpp:182-184 | admitting a new connection to a server with room keeps the registry invariant and adds exactly that connection |
| ServerLoop.DropKeepsInv | server/server_main.cpp:213-217 | dropping a closed connection keeps the registry invariant and removes exactly that connection |
| ServerLoop.ServeKeepsInv | server/server_main.cpp:166-237 | serving any socket that `select` may report keeps the registry and game invariants |
| ServerLoop.ServeMembers | server/server_main.cpp:182-183 | serving one socket adds at most the accepted connection to the clients and removes at most the served one |
| ServerLoop.ReadyIsRunnable | server/server_main.cpp:163-167 | a round in which `select` reports each socket at most once can be served in order, however earlier sockets change the registry |
| ServerLoop.StateLinesAt | server/server_main.cpp:232-236 | a broadcast sends each client, in client order, the line framed for the slot it controls |
| ServerLoop.GreetingAt | server/server_main.cpp:195-202 | at the start of a match each client in order gets the start notice and then its own state line |
| ServerLoop.BroadcastParses | server/server_main.cpp:232-236 | every line of a broadcast parses, at its recipient, to that recipient's view of the game |
| ServerLoop.NoticesDoNotParse | server/server_main.cpp:175-196 | none of the three notices ("server full", "connected! waiting...", "game start!") parses as a state line |
| ServerLoop.FullServerRejects | server/server_main.cpp:174-180 | a third connection gets the "server full" notice and nothing else changes |
| ServerLoop.ConnectAdmits | server/server_main.cpp:182-203 | a connection to a server with room is appended and told to wait; it controls the first player exactly when it is alone; when it makes two the match starts and each client gets the start notice and its line |
| ServerLoop.WaitingIgnoresInput | server/server_main.cpp:206 | before two clients are connected a ready client socket changes nothing and sends nothing |
| ServerLoop.DisconnectDrops | server/server_main.cpp:211-218 | a closed connection leaves the clients and the slot map, the match stops, the game is kept and nothing is sent |
| ServerLoop.QuitChangesNothing | server/server_main.cpp:222-225 | 'E' or 'e' breaks the round off and changes nothing |
| ServerLoop.MoveBroadcasts | server/server_main.cpp:228-236 | any other byte moves the sender's player as `decode` says and sends every client its line, even when the move was refused |
| ServerLoop.ReconnectSharesSlot | server/server_main.cpp:184 | after the first player's connection closes, a newcomer and the remaining client both control the second player |
| ServerLoop.RunnablePrefix | server/server_main.cpp:166-238 | a round that can be served in full can be served up to any point |
| ServerLoop.QuitEndsRound | server/server_main.cpp:222-225 | once a quit breaks the round off, the sockets reported after it make no difference |
| ServerLoop.Server.constructor | server/server_main.cpp:157-160 | the loop's variables start as `InitialState` |
| ServerLoop.Server.Broadcast | server/server_main.cpp:232-236 | the loop over the clients sends exactly `StateLines` |
| ServerLoop.Server.Greet | server/server_main.cpp:195-202 | the loop over the clients sends exactly `Greeting` |
| ServerLoop.Server.Accept | server/server_main.cpp:170-204 | serving the listening socket changes the fields and sends what `Connect` says, and keeps the invariant |
| ServerLoop.Server.Disconnect | server/server_main.cpp:213-217 | the registry after the call is `Drop` of the registry before |
| ServerLoop.Server.MoveAndBroadcast | server/server_main.cpp:228-236 | the game after the call is `Moved` of the game before, and the broadcast is its `StateLines` |
| ServerLoop.Server.Service | server/server_main.cpp:206-237 | serving a client socket changes the fields, sends and quits as `Input` says, and keeps the invariant |
| ServerLoop.Server.Step | server/server_main.cpp:167-237 | serving one ready socket agrees with `Serve` |
| ServerLoop.Server.Round | server/server_main.cpp:166-238 | one round over the ready sockets agrees with `RunRound`: the new state, every send in order, and whether a quit broke it off |
| Client.Entity.constructor | client/client_main.cpp:33-35 | a new entity stands at the origin with its target and previous position there too |
| Client.Entity.UpdateTarget | client/client_main.cpp:37-41 | the old target becomes the previous position, the new pair the target, and the drawn position is kept |
| Client.UnparsedChangesNothing | client/client_main.cpp:176-178 | a buffer that does not hold eight integers changes nothing |
| Client.FirstLineSnaps | client/client_main.cpp:156-163 | the first state line snaps every entity, drawn, target and previous, to its parsed pair and sets both scores |
| Client.LaterLineRetargets | client/client_main.cpp:178-191 | a later state line gives every entity its parsed pair as target and its old target as previous, keeps where it is drawn, and overwrites both scores |
| Client.ReceivesServerState | client/client_main.cpp:176-181 | when the client receives the line the server sent it, its own entity heads for its player's cell, the other entity for the other player's, the coin entity for the coin, and the scores are the players' |
| Client.Receiver.constructor | client/client_main.cpp:52-54 | the globals start with every entity at the origin, both scores 0, and the game not over |
| Client.Receiver.Receive | client/client_main.cpp:149-195 | one received buffer changes the entities and scores as `Received` says, in whichever loop the thread is |
| Client.Command | client/client_main.cpp:241-251 | the arrows send 'U', 'D', 'L', 'R' and E sends 'E', each exactly for that key; every other key sends nothing |
| Client.ArrowsDecode | client/client_main.cpp:243-246 | the byte each arrow sends decodes, at the server, to the direction of that arrow |
| Client.Receiver.PollEvents | client/client_main.cpp:234-256 | one pass over the pending events sends the bytes and sets the game-over flag as `Polled` says |
| Client.PolledBytes | client/client_main.cpp:252-254 | every byte sent is one of the five commands, and nothing is sent without a socket |
| Client.PolledEnds | client/client_main.cpp:234-251 | a pass ends the game exactly when some event does: a quit request, or the E key with no quit request before it |
| CoinCollect.Spawn | coin-collect/Source.cpp:51-52 | a coin placed from `rand()` is always on the board |
| CoinCollect.SetUpIsValid | coin-collect/Source.cpp:41-55 | `Setup` leaves the player at the centre, score 0, the game running, and the coin on the board |
| CoinCollect.PressedMovesOneStep | coin-collect/Source.cpp:88-98 | 'a' and 'd' move the player one cell to lower and higher x, 'w' and 's' to lower and higher y; the player moves exactly for these keys and by at most one cell; only 'x' ends the game; coin and score are untouched |
| CoinCollect.ClampInRange | coin-collect/Source.cpp:110-113 | clamping lands on the board and leaves a coordinate already on it alone |
| CoinCollect.CollectedOnBoard | coin-collect/Source.cpp:109-113 | after `Logic` the player is on the board, and a player already on it has not moved |
| CoinCollect.CollectedScores | coin-collect/Source.cpp:100-107 | the score grows by 10 exactly when the player stands on the coin, and the coin is then respawned on the board; otherwise score and coin stay |
| CoinCollect.OffBoardNeverCollects | coin-collect/Source.cpp:100-113 | a step past the wall never collects the coin, although the clamp comes after the coin test |
| CoinCollect.FrameKeepsValid | coin-collect/Source.cpp:118-122 | one frame keeps player and coin on the board and the score a non-negative multiple of 10, and adds 10 exactly on a collection |
| CoinCollect.PlayedKeepsValid | coin-collect/Source.cpp:116-125 | over any script of keys the invariant holds, and the score never falls and grows by at most 10 per key |
| CoinCollect.PlayedEndsOnQuit | coin-collect/Source.cpp:116-125 | the loop ends the game exactly when an 'x' is pressed |
| CoinCollect.Console.constructor | coin-collect/Source.cpp:41-55 | a new console holds `SetUp` of the roll |
| CoinCollect.Console.Setup | coin-collect/Source.cpp:41-55 | the globals after `Setup` are `SetUp` of the roll |
| CoinCollect.Console.Input | coin-collect/Source.cpp:88-98 | the globals after `Input` are `Pressed` of the globals before |
| CoinCollect.Console.Logic | coin-collect/Source.cpp:100-114 | the globals after `Logic` are `Collected` of the globals before |
| CoinCollect.Console.Play | coin-collect/Source.cpp:116-125 | the main loop over a script of keys leaves the globals as `Played` says, drawing a roll only on a collection |

## Left out

- Socket setup and teardown are not modelled: Winsock start-up, `getaddrinfo`, `bind`, `listen`, `connect`, their failure exits, and `closesocket`.
- The failure of `select`, `accept` or `send` is not modelled. A `send` is a `Message` in the output sequence.
- The `Sleep` calls that simulate network latency are left out, and so are all console output and the SDL window, renderer and `render`.
- Messages are whole. TCP may split a state line or join it to a notice in one `recv`. The model parses each `Message` text on its own, so a buffer that joins a notice and a line is not covered. `NoticesDoNotParse` is about a notice received alone.
- `Entity::interpolate`, `lastUpdateTime` and the clocks are left out. `Entity.current` changes only where the network thread sets it. Floats are modelled as reals, which is exact for the grid's small integers.
- The client's two threads share globals without locks. The model treats each receive and each polling pass as one atomic step.
- `Client.Receiver.Receive` takes a received buffer. A `recv` that returns 0 or less is skipped by the source, and the model leaves that call out.
- The model does not bound a received buffer to the 511 bytes that `recv` is given room for.
- The code after the event pass in the client's main loop is left out: the `if (gameOver) break;`, interpolation and rendering.
- The server's `while (true)` and the client's loops run forever. The model covers one round of the server (`Server.Round`), one buffer of the client and one polling pass.
- The order in which `select` lists ready sockets is the order of the `Ready` sequence. The model asks only that each socket appears at most once (`RoundReady`).
- `ServerGame.GameState.SpawnCoin` requires the draws to contain a free cell, and `GameState.MovePlayer` requires three different drawn cells (`ThreeDistinctCells`), because `srand`/`rand` are not modelled. With an unlucky `rand()` the source's loop could run forever.
- `ServerGame.SerializeParses` requires both scores to fit a 32-bit `int`. Scores are unbounded integers in the model, and the source's `int` score would overflow after 2^31 / 10 collections.
- `CoinCollect.Console.Play` models scores as unbounded integers, for the same reason.
- `CoinCollect.Console.Input` takes each key code as a `char`. `_getch` returns an `int`, and an extended key arrives as two codes over two frames: a prefix (0 or 0xE0) that does nothing, then a second code. When that second code is one of 'a', 'd', 'w', 's' or 'x' (Ctrl+Left gives 's', Alt+1 gives 'x'), `Input` acts on it. The model covers this, because each entry of a key script is one `_getch` code.
- The prototype's `Draw`, `HideCursor`, `ResetCursor` and `Sleep` are console output only, and are left out.
- Client.Receiver.PollEvents: takes `connected` to stand for `clientSocket != INVALID_SOCKET`. The socket handle itself is left out.
