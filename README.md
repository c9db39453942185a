# Chess room server, bot fallback and client helpers — a Dafny model

This project models the sequential logic of a small multiplayer chess
server and its browser client.

- **The session coordinator** (index.js) owns the room table `gameRooms`
  and the matchmaking list `waitingPlayers`. It handles `player-join`, by
  room code or by matchmaking on the time control, and `create-bot-game`.
  It also handles one tick of a room's clock, `movePiece` and `disconnect`.
  It is modelled as the class `GameServer.Coordinator`. Rooms are datatype
  values in a `map`, and the map's insertion order is kept beside it in a
  `seq`. The scans in `movePiece` and `disconnect` stop at the first room
  in that order, so the order matters.
- **The chess rules** come from the chess.js library. They are an
  oracle, `ChessRules.Rules<P>`: whose turn it is, the position after a
  move or a refusal, and the game-over, checkmate and draw tests.
- **The pure helpers of the server**: `formatTime` (`mm:ss`) and the
  time-control table (`ServerClock`).
- **The offline parts of the bot** (claude-chess-ai.js):
  - extracting a legal move from a suggestion text (`MoveExtraction`);
  - the thinking-time rule, the piece values, the random and rule-based
    fallback moves, and the game-phase rule (`BotFallback`).
- **The client's helpers** (public/chessgame.js):
  - reading an `mm:ss` clock back into seconds, the warning classes of a
    timer, and which clock goes on top (`ClientTimers`);
  - square names, square shading, piece glyphs and the drag rule
    (`ClientBoard`).
- **Support modules.** `JsText` and `JsArrays` give the JavaScript string
  and array operations these files rely on: `parseInt`, `padStart`,
  `includes`, `split`, `trim`, `find`, `filter` and `splice`.

The main results:

- Reading back the server's clock string gives the seconds it rendered,
  for every non-negative clock: `ClientTimers.TimerSecondsOfFormatTime`.
- Each handler states its outcome and the whole new state of the room
  table and the waiting list.
- Joining by code never seats a third player. Matchmaking keeps the
  two-player bound only while every waiting entry names an open one-player
  room (`SeatBounds`).
- Joining by code leaves its waiting entry behind, and a disconnect can
  remove a room that a second waiting entry of the same socket still
  names. Three scenarios in `ServerScenarios` show what follows:
  - matchmaking seats a third player in a full room;
  - after the code-joined player disconnects, matchmaking reaches a waiting
    entry whose room is gone and the handler throws;
  - a player waiting in two rooms disconnects, and matchmaking throws on
    the entry left behind.
- The word-by-word second pass of the move extraction can never find a
  move that the substring pass missed.

## Model

| member | source | states |
|---|---|---|
| `ServerClock.FormatTimeFields` | index.js:63-67 | for s ≥ 0 the rendering is the padded minutes `s div 60`, a colon, and the padded seconds `s mod 60`; both fields are digit strings denoting those numbers |
| `ServerClock.FormatTimeLength` | index.js:63-67 | for 0 ≤ s < 6000 the rendering is exactly five characters, digits around a colon at index 2 |
| `ServerClock.TimeLimitSeconds` | index.js:163-169 | '1min','3min','5min','10min','30min' give n minutes in seconds; any other label (the missing one included) gives 300 |
| `ChessRules.Opposite` | index.js:56 | the winner named on a timeout is the colour other than the one whose clock ran out |
| `GameServer.PlayerIndex` | index.js:373 | the first seat of the room whose socket id matches, or none when no seat matches |
| `GameServer.WaitingIndexByTime` | index.js:215 | the first waiting entry with an equal time control, or none when no entry has it |
| `GameServer.WaitingIndexById` | index.js:416 | the first waiting entry of the socket, or none |
| `GameServer.CheckmateNamesSideToMoveAsLoser` | index.js:391-396 | after a checkmate the message declares the side NOT to move the winner |
| `GameServer.Coordinator.constructor` | index.js:30-31 | the server starts with an empty room table and an empty waiting list |
| `GameServer.Coordinator.StartGameTimer` | index.js:39-47 | the room's interval is set unless the room is absent or over; nothing else changes |
| `GameServer.Coordinator.FindRoomOf` | index.js:362-368 | the scan returns the first room in insertion order that seats the socket, and no earlier room seats it |
| `GameServer.Coordinator.JoinByCode` | index.js:172-211 | absent code: roomNotFound, no change; two or more seats: roomFull, no change; otherwise exactly one black seat is appended, the clock starts, and no other room or waiting entry changes |
| `GameServer.Coordinator.Matchmake` | index.js:214-292 | the first waiting entry with an equal time control is consumed and its room gains a black seat, with no size check (a vanished room makes the handler throw, with no change); otherwise a new room with one white seat, both clocks at the table value, not over, and one waiting entry appended |
| `GameServer.Coordinator.PlayerJoin` | index.js:162-293 | a non-empty room code joins by code, an empty one matchmakes |
| `GameServer.Coordinator.CreateBotGame` | index.js:295-355 | one new room, last in order: human white, `'bot'` black named `BotName` (` AI (…)` with the suggestion service configured, `Bot (…)` without), bot flag and difficulty set, equal clocks from the table, not over, clock running; waiting list and other rooms unchanged |
| `GameServer.Coordinator.Tick` | index.js:47-75 | only the side to move loses a second; at ≤ 0 that clock is 0, the room is over, the other colour wins and the room leaves the table; otherwise the table holds the ticked room and both clocks are sent as `mm:ss` |
| `GameServer.Coordinator.MovePiece` | index.js:357-410 | no room or a finished room: ignored; wrong colour or a move the rules refuse: invalidMove, no change; a move that ends the game finishes and removes the room with the result message; otherwise the room holds the new position and the bot is called exactly when it is a bot room with black to move, and then the bot's own entry guard admits the room |
| `GameServer.Coordinator.Disconnect` | index.js:412-446 | the socket's first waiting entry is removed, with its room only if that room has exactly one seat; then only the first room still seating the socket is removed; every remaining room is unchanged |
| `GameServer.Coordinator.BotMayMove` | index.js:81 | the bot's entry guard: the room exists, is not over, and has black to move; `MovePiece` hands over to the bot only when this holds |
| `SeatBounds.JoinByCodeKeepsSeatBound` | index.js:178-185 | joining by code never makes a room hold more than two players |
| `SeatBounds.JoinByCodeStrandsWaitingEntry` | index.js:183-185 | joining by code a room someone waits in leaves that entry naming a two-player room |
| `SeatBounds.MatchmakingKeepsSeatBound` | index.js:215-267 | while every waiting entry names a distinct one-player room, matchmaking does not throw and keeps both the two-player bound and that condition |
| `SeatBounds.PairingKeepsSeatBound` | index.js:219-229 | consuming a waiting entry and seating black in its room keeps the bound and the condition |
| `SeatBounds.CreationKeepsSeatBound` | index.js:255-267 | creating a one-player room under a fresh code with its waiting entry keeps the bound and the condition |
| `ServerScenarios.ThirdPlayerJoins` | index.js:172-229 | a matchmade room joined by code is later matchmade again, and ends with three players, two of them black |
| `ServerScenarios.StaleWaitingEntry` | index.js:215-223 | after the code-joined player disconnects, matchmaking finds the stale entry and throws |
| `ServerScenarios.StrandedByDisconnect` | index.js:412-446 | a player who opened two rooms by matchmaking disconnects; both rooms go but the second waiting entry stays, and matchmaking on its time control throws |
| `MoveExtraction.RemovePunct` | claude-chess-ai.js:82 | the cleaned text holds no `.`, `,`, `!` or `?` and is no longer than the input |
| `MoveExtraction.RemovePunctCounts` | claude-chess-ai.js:82 | every other character keeps its number of occurrences; punctuation has none |
| `MoveExtraction.RemovePunctAppend` | claude-chess-ai.js:82 | removal distributes over concatenation, so the kept characters stay in order |
| `MoveExtraction.RemovePunctIdempotent` | claude-chess-ai.js:82 | removing twice is removing once |
| `MoveExtraction.Clean` | claude-chess-ai.js:82 | the cleaned response is a contiguous part of the punctuation-free text with no white space at either end |
| `MoveExtraction.FirstOccurring` | claude-chess-ai.js:85-89 | the first move in list order that occurs in the text; none iff no move occurs |
| `MoveExtraction.SuggestedMove` | claude-chess-ai.js:80-102 | the result is null iff no move occurs in the cleaned response; otherwise it is an element of the move list that occurs in it, and no earlier move occurs |
| `MoveExtraction.WordPassAddsNothing` | claude-chess-ai.js:92-99 | when the substring pass finds nothing, no word of the split response is a move |
| `MoveExtraction.SubstringPass` | claude-chess-ai.js:85-89 | the first loop returns the first move equal to or contained in the cleaned text |
| `MoveExtraction.WordPass` | claude-chess-ai.js:92-99 | the second loop returns the first word in order that is a move, and null iff no word is a move |
| `MoveExtraction.ExtractMoveFromResponse` | claude-chess-ai.js:80-102 | both loops together return exactly the specified suggested move |
| `BotFallback.ThinkingTimeRule` | claude-chess-ai.js:104-117 | bases 500/1500/3000 for easy/medium/hard; for t ≠ 0 and t < 60 the result is min(base, 100·t), otherwise the base; never above the base; no number for another difficulty |
| `BotFallback.ThinkingTimeFullAfterHalfMinute` | claude-chess-ai.js:112-116 | with 30 s or more left the base time is used unchanged |
| `BotFallback.ThinkingTimeMonotone` | claude-chess-ai.js:112-113 | for positive remaining times, more time left never gives less thinking time (0 counts as no time given and gives the base) |
| `BotFallback.Min` | claude-chess-ai.js:113 | `Math.min`: not above either argument and equal to one of them |
| `BotFallback.PieceValue` | claude-chess-ai.js:172-175 | values p=1, n=3, b=3, r=5, q=9, k=0; any other string 0 (the prototype keys aside); never above 9, and positive only for the five capturable letters |
| `BotFallback.PieceValueOrder` | claude-chess-ai.js:173 | queen > rook > knight = bishop > pawn > king = 0, and no piece is worth more than the queen |
| `BotFallback.RandomIndex` | claude-chess-ai.js:169 | `Math.floor(Math.random() * n)` is a valid index |
| `BotFallback.GetRandomMove` | claude-chess-ai.js:167-170 | null iff there are no moves, otherwise one of the moves |
| `BotFallback.FirstMaximal` | claude-chess-ai.js:156-157 | the index of the earliest capture whose captured value no other capture exceeds: every earlier one is strictly smaller |
| `BotFallback.SortByCapturedValue` | claude-chess-ai.js:156 | the captures end up ordered by non-increasing captured value, are a permutation of the input, and, as a stable sort gives, the head is the earliest capture of maximal value |
| `BotFallback.InsertLeft` | claude-chess-ai.js:156 | one insertion step extends the sorted prefix by one element, permutes the array, leaves the rest alone, and moves the new element to the head only when it is strictly larger |
| `BotFallback.FirstBestCapture` | claude-chess-ai.js:153-157 | the earliest maximal element of the filtered captures is, in the move list, a capture of maximal value with every earlier capture strictly smaller |
| `BotFallback.SmartFallbackMove` | claude-chess-ai.js:119-165 | null iff no moves, else the san of one of the moves; easy: a good move when the 30% draw succeeds and one exists; medium: a tactical move whenever one exists; hard: the first mate, else one of the checks, else the earliest capture of maximal value |
| `BotFallback.GamePhaseByHistory` | claude-chess-ai.js:63 | with move number ⌊h/2⌋+1: opening for h < 20 half-moves, middlegame for 20 ≤ h < 50, endgame beyond |
| `JsArrays.FilterKeepsOrder` | claude-chess-ai.js:153 | `filter` keeps order: the k-th kept element sits in the list after every earlier kept element |
| `JsText.Trim` | claude-chess-ai.js:82 | `trim` gives a contiguous part of the input with only white space cut from either end, and no white space at either end of the result |
| `JsText.ParseIntOfDigits` | public/chessgame.js:161 | `parseInt` of a non-empty string of decimal digits is the number the digits denote |
| `ClientTimers.TimerSecondsOfDigits` | public/chessgame.js:161 | parsing `"a:b"` for digit strings gives a·60 + b |
| `ClientTimers.TimerSecondsOfFormatTime` | public/chessgame.js:161 | parsing the server's `formatTime(s)` gives back s for every s ≥ 0 |
| `ClientTimers.StyledClasses` | public/chessgame.js:162-174 | 'danger' iff seconds ≤ 30, 'warning' iff 30 < seconds ≤ 60, never both; 'active' iff active and 'inactive' iff not; other classes untouched |
| `ClientTimers.DangerForFormattedClock` | public/chessgame.js:164-168 | for a clock the server rendered, 'danger' shows exactly at s ≤ 30 and 'warning' at 30 < s ≤ 60 |
| `ClientTimers.UpdateTimerStyling` | public/chessgame.js:160-175 | the class list becomes the old one minus the four classes, plus the urgency class and the activity class |
| `ClientTimers.ClientView.constructor` | public/chessgame.js:3-6 | no role, white to move, and after the initial display both timers show `05:00`, the top one (black's) styled `inactive` and the bottom one (white's) `active`, with no other class |
| `ClientTimers.ClientView.UpdateTimerDisplay` | public/chessgame.js:133-158 | role 'b': white's clock on top, black's below; any other role: black's on top, white's below; each styled active iff its colour is to move, so exactly one is active |
| `ClientTimers.ClientView.SetActiveTimer` | public/chessgame.js:177-181 | records the side to move and redraws the stored clocks: for role 'b' white's clock on top, otherwise black's; each timer's classes are its old ones restyled for its clock's seconds, active iff its colour is to move |
| `ClientBoard.SquareNameOnBoard` | public/chessgame.js:226-227 | on the board the name is a file a..h and a rank 1..8, and reading it back gives the row and column |
| `ClientBoard.SquareNamesDistinct` | public/chessgame.js:226-227 | distinct squares have distinct names |
| `ClientBoard.SquareShadeParity` | public/chessgame.js:191 | 'light' iff row + col is even, 'dark' iff odd; neighbours along a rank or file differ |
| `ClientBoard.ToUpper` | public/chessgame.js:243 | same length; each letter a..z becomes the upper-case letter at the same alphabet position; every other character is unchanged |
| `ClientBoard.ToLower` | public/chessgame.js:243 | same length; each letter A..Z becomes the lower-case letter at the same alphabet position; every other character is unchanged |
| `ClientBoard.CaseRoundTrips` | public/chessgame.js:243 | lowering after raising is lowering, and raising after lowering is raising |
| `ClientBoard.GlyphKeyInverts` | public/chessgame.js:238-242 | every glyph of the table determines its key |
| `ClientBoard.GlyphsDistinct` | public/chessgame.js:238-242 | the twelve glyphs are pairwise different |
| `ClientBoard.PieceUnicodeKeys` | public/chessgame.js:238-245 | for the six piece types white looks up the upper-case key and black the lower-case one, both mapped, and the two glyphs differ |
| `ClientBoard.PieceUnicodeUnmapped` | public/chessgame.js:244 | a one-character type other than the twelve piece letters, and any longer or empty type, gives `''` |
| `ClientBoard.DraggableByOwnColour` | public/chessgame.js:199 | for colours 'w' and 'b' a piece is draggable iff the player's role equals its colour; spectators and players without a role drag nothing |

## Left out

- Express, http and socket.io setup, static files and `server.listen`.
  Emitted events are not sent. The handlers' outcome values stand for
  `roomNotFound`, `roomFull`, `roomJoined`/`roomCreated` with the room
  code and the `playerRole`, the clocks of the first `timerUpdate`,
  `timerUpdate` and `timeout` with the winner, `invalidMove`, `gameOver`
  with its result message, and `playerLeft` with the leaving player's
  name and whether the room is not a bot game (then the event is
  emitted, even into a room with nobody else in it). The payloads of
  `playerUpdate` and `boardState` (player names, FEN text) are not
  represented.
  `socket.join` room membership is not modelled.
- Scheduling by `setInterval`, `setTimeout` and `clearInterval`. A room's
  interval is the flag `timerRunning`, and a tick is an explicit call to
  `Tick`. The interval callback holds the room object itself, not its code.
  `Tick` looks the room up by code instead. The two agree because every
  path that removes a room with a running clock also stops that clock, and
  room codes are taken to be fresh. The one path that removes a room
  without stopping its clock is the waiting-entry cleanup of `disconnect`,
  which removes only one-player rooms; no one-player room has a running
  clock, because only `JoinByCode`, the pairing in `Matchmake` and
  `CreateBotGame` set the flag, each on a room that then seats two or
  more, and no handler removes a seat from a room it keeps. This is argued
  here, not proved as an invariant of the model.
- WaitingIndexByTime: a `player-join` without a `timeLimit` and one with
  `''` are both modelled as the label `""`, so they pair with each other,
  which `===` would not do (`undefined` is not `''`). The client always
  sends a string.
- `generateRoomCode` uses random floats. The code is a parameter, required
  not to be in the table. Collisions, where `gameRooms.set` would replace a
  live room, are not modelled.
- `makeBotMove` (index.js:79-157) is async orchestration around network
  calls and random delays. Only its entry guard is modelled
  (`BotMayMove`). `MovePiece` reports `BotToMove` where the source calls it.
- chess.js itself (legality, FEN, checkmate detection) is an abstract
  oracle. A move that makes chess.js throw is modelled the same as a
  refused one, because the handler answers both with `invalidMove`.
- The Anthropic API calls in `getChessMove` and `getPositionAnalysis`, and
  the prompt text of `buildPrompt`. Only the game-phase rule is modelled.
- `Math.random()` draws become parameters in [0, 1).
- Time-control labels that name `Object.prototype` members (`'constructor'`,
  `'__proto__'`) would yield a non-number from the table lookup. They are
  not modelled: every label outside the five gives 300.
- PieceValue: the value table has the same `Object.prototype` gap; a
  piece string such as `'constructor'` would look up a non-number, and the
  model gives 0 for every string outside the six letters.
- The glyph lookup has the same `Object.prototype` gap for multi-character
  piece types. `toUpperCase`/`toLowerCase` are modelled on ASCII letters
  only.
- `SquareName` takes column numbers whose code unit is a character below
  the surrogate range. The board only produces columns 0..7.
- `CalculateThinkingTime`: `timeRemaining * 1000 * 0.1` is modelled as the
  integer `100 * t`. Floating-point rounding is not modelled. `NaN` and
  `undefined` results are both `None`.
- SortByCapturedValue: the sort is proved ordered, a permutation, and to
  put the earliest maximal capture first. That equal values beyond the
  head keep their input order is not stated, because only the head is read.
- DOM work of the client: element creation in `renderBoard`, event
  listeners, alerts, socket handlers, screen switching and player-info
  panels.
