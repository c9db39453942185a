/**
  The session coordinator of the chess server (index.js): the room table
  `gameRooms`, the matchmaking list `waitingPlayers`, and the socket handlers
  that change them: `player-join` (by room code or by matchmaking),
  `create-bot-game`, `movePiece`, `disconnect`, and one tick of a room's
  clock.

  Rooms are values held in the table; the JavaScript `Map`'s insertion order
  is kept beside it in `order`, because `movePiece` and `disconnect` act on
  the FIRST room in that order that seats the socket. What a handler emits
  is returned as an outcome value.
 */
module GameServer {
  import opened Wrappers
  import opened JsArrays
  import opened ChessRules
  import opened ServerClock

  /** A seat in a room: the socket id, the display name and the colour. */
  datatype Player = Player(id: string, name: string, color: Color)

  /**
    A room. `timerRunning` says whether a clock interval is set for it;
    `isBot` is false and `botDifficulty` empty for rooms that are not bot games.
   */
  datatype Room<P> = Room(
    game: P,
    players: seq<Player>,
    whiteTime: int,
    blackTime: int,
    gameOver: bool,
    timerRunning: bool,
    isBot: bool,
    botDifficulty: string)

  /** An unmatched request waiting for an opponent with the same time control. */
  datatype WaitingEntry = WaitingEntry(id: string, name: string, timeLimit: string, roomId: string)

  /** The coordinator's three pieces of state, as one value. */
  datatype Tables<P> = Tables(rooms: map<string, Room<P>>, order: seq<string>, waiting: seq<WaitingEntry>)

  /** What `player-join` and `create-bot-game` tell the socket. */
  datatype JoinOutcome =
    | RoomNotFound
    | RoomFull
    | Crashed  // the handler throws before changing anything
    | JoinedAsBlack(roomCode: string, whiteClock: string, blackClock: string)
    | CreatedAsWhite(roomCode: string, whiteClock: string, blackClock: string)

  /** What one tick of a room's clock does. */
  datatype TickOutcome<P> =
    | NotTicking
    | TimerUpdate(whiteClock: string, blackClock: string)
    | Timeout(winner: Color, finalRoom: Room<P>)

  /** What `movePiece` does. */
  datatype MoveOutcome<P> =
    | Ignored
    | InvalidMove
    | Moved(roomCode: string)
    | BotToMove(roomCode: string)
    | GameOver(roomCode: string, result: string, finalRoom: Room<P>)

  /** What `disconnect` does about the room that seats the socket. */
  datatype Departure = NotInRoom | LeftRoom(roomCode: string, playerName: string, notified: bool)

  // ------------------------------------------------------------ room helpers

  /** The remaining seconds of one colour. */
  function ClockOf<P>(r: Room<P>, c: Color): int {
    if c == White then r.whiteTime else r.blackTime
  }

  /** The room with one colour's clock set to `t` (`room[timeKey] = t`). */
  function WithClock<P>(r: Room<P>, c: Color, t: int): (s: Room<P>)
    ensures ClockOf(s, c) == t && ClockOf(s, Opposite(c)) == ClockOf(r, Opposite(c))
    ensures s.game == r.game && s.players == r.players && s.gameOver == r.gameOver
    ensures s.timerRunning == r.timerRunning && s.isBot == r.isBot && s.botDifficulty == r.botDifficulty
  {
    if c == White then r.(whiteTime := t) else r.(blackTime := t)
  }

  /** `players.find(p => p.id === sid)`, as a position. */
  function PlayerIndex(players: seq<Player>, sid: string): (r: Option<nat>)
    ensures r.Some? ==> r.value < |players| && players[r.value].id == sid
    ensures r.Some? ==> forall j :: 0 <= j < r.value ==> players[j].id != sid
    ensures r.None? <==> forall j :: 0 <= j < |players| ==> players[j].id != sid
  {
    FindFirst(players, (p: Player) => p.id == sid)
  }

  /** The room seats the socket `sid` (`players.some(p => p.id === sid)`). */
  predicate Seats<P>(r: Room<P>, sid: string) {
    PlayerIndex(r.players, sid).Some?
  }

  /** `waitingPlayers.find(p => p.timeLimit === timeLimit)`, as a position. */
  function WaitingIndexByTime(waiting: seq<WaitingEntry>, timeLimit: string): (r: Option<nat>)
    ensures r.Some? ==> r.value < |waiting| && waiting[r.value].timeLimit == timeLimit
    ensures r.Some? ==> forall j :: 0 <= j < r.value ==> waiting[j].timeLimit != timeLimit
    ensures r.None? <==> forall j :: 0 <= j < |waiting| ==> waiting[j].timeLimit != timeLimit
  {
    FindFirst(waiting, (w: WaitingEntry) => w.timeLimit == timeLimit)
  }

  /** `waitingPlayers.findIndex(p => p.id === sid)`. */
  function WaitingIndexById(waiting: seq<WaitingEntry>, sid: string): (r: Option<nat>)
    ensures r.Some? ==> r.value < |waiting| && waiting[r.value].id == sid
    ensures r.Some? ==> forall j :: 0 <= j < r.value ==> waiting[j].id != sid
    ensures r.None? <==> forall j :: 0 <= j < |waiting| ==> waiting[j].id != sid
  {
    FindFirst(waiting, (w: WaitingEntry) => w.id == sid)
  }

  predicate Distinct(s: seq<string>) {
    forall i, j :: 0 <= i < j < |s| ==> s[i] != s[j]
  }

  /** The insertion order after `gameRooms.delete(x)`. */
  function Without(s: seq<string>, x: string): (r: seq<string>)
    ensures forall y :: y in r <==> y in s && y != x
    ensures Distinct(s) ==> Distinct(r)
    ensures x !in s ==> r == s
  {
    if s == [] then []
    else if s[0] == x then Without(s[1..], x)
    else
      var r := Without(s[1..], x);
      if Distinct(s) then
        assert s[0] !in s[1..] by {
          forall j | 0 <= j < |s[1..]| ensures s[1..][j] != s[0] { assert s[1..][j] == s[j + 1]; }
        }
        assert Distinct(s[1..]) by {
          forall i, j | 0 <= i < j < |s[1..]| ensures s[1..][i] != s[1..][j] {
            assert s[1..][i] == s[i + 1] && s[1..][j] == s[j + 1];
          }
        }
        DistinctCons(s[0], r);
        [s[0]] + r
      else
        [s[0]] + r
  }

  lemma DistinctCons(x: string, s: seq<string>)
    requires x !in s && Distinct(s)
    ensures Distinct([x] + s)
  {
    forall i, j | 0 <= i < j < |[x] + s|
      ensures ([x] + s)[i] != ([x] + s)[j]
    {
      if i > 0 {
        assert ([x] + s)[i] == s[i - 1];
      }
      assert ([x] + s)[j] == s[j - 1];
    }
  }

  /**
    The room table and its insertion order list the same codes, each once,
    and every room in the table has both clocks positive (a clock that
    reaches zero removes its room).
   */
  ghost predicate WellFormed<P>(rooms: map<string, Room<P>>, order: seq<string>) {
    (forall c :: c in rooms <==> c in order) && Distinct(order) &&
    (forall c :: c in rooms ==> rooms[c].whiteTime > 0 && rooms[c].blackTime > 0)
  }

  /** The insertion order after `gameRooms.set(code, _)`: a new key goes last, an existing one keeps its place. */
  function WithKey(order: seq<string>, code: string): (r: seq<string>)
    ensures forall y :: y in r <==> y in order || y == code
  {
    if code in order then order else order + [code]
  }

  /** `gameRooms.set` with a room whose clocks are positive keeps the table well formed. */
  lemma SetRoomWellFormed<P>(rooms: map<string, Room<P>>, order: seq<string>, code: string, r: Room<P>)
    requires WellFormed(rooms, order) && r.whiteTime > 0 && r.blackTime > 0
    ensures WellFormed(rooms[code := r], WithKey(order, code))
  {
    if code !in order {
      var o := order + [code];
      forall i, j | 0 <= i < j < |o|
        ensures o[i] != o[j]
      {
        assert o[i] == order[i];
        if j < |order| {
          assert o[j] == order[j];
        }
      }
    }
  }

  lemma RemoveRoomWellFormed<P>(rooms: map<string, Room<P>>, order: seq<string>, code: string)
    requires WellFormed(rooms, order)
    ensures WellFormed(rooms - {code}, Without(order, code))
  {
  }

  /**
    The position in insertion order of the first room that seats `sid`, or
    `|order|` if none does: where the `for ... of gameRooms.entries()` scans
    of `movePiece` and `disconnect` stop.
   */
  function FirstRoomWith<P>(order: seq<string>, rooms: map<string, Room<P>>, sid: string): (k: nat)
    requires forall i :: 0 <= i < |order| ==> order[i] in rooms
    ensures k <= |order|
    ensures k < |order| ==> Seats(rooms[order[k]], sid)
    ensures forall j :: 0 <= j < k ==> !Seats(rooms[order[j]], sid)
  {
    if order == [] then 0
    else if Seats(rooms[order[0]], sid) then 0
    else 1 + FirstRoomWith(order[1..], rooms, sid)
  }

  /** A room after `players.push(p)` followed by `startGameTimer`, which does nothing to a finished room. */
  function JoinAndStart<P>(r: Room<P>, p: Player): Room<P> {
    r.(players := r.players + [p], timerRunning := r.timerRunning || !r.gameOver)
  }

  /** The table after `startGameTimer(code)`: the interval is set unless the room is absent or finished. */
  function TimerStarted<P>(rooms: map<string, Room<P>>, code: string): map<string, Room<P>> {
    if code in rooms && !rooms[code].gameOver then rooms[code := rooms[code].(timerRunning := true)] else rooms
  }

  /** Seating a player and then starting the timer is one update of the room. */
  lemma SeatThenStart<P>(rooms: map<string, Room<P>>, code: string, r: Room<P>, p: Player)
    ensures TimerStarted(rooms[code := r.(players := r.players + [p])], code) == rooms[code := JoinAndStart(r, p)]
  {
  }

  /** The room matchmaking creates: one white player, both clocks at `seconds`, no interval yet. */
  function WaitingRoom<P>(start: P, sid: string, name: string, seconds: int): Room<P> {
    Room(start, [Player(sid, name, White)], seconds, seconds, false, false, false, "")
  }

  /** The name the bot gets, depending on whether the suggestion service is configured. */
  function BotName(apiKeyConfigured: bool, difficulty: string): string {
    (if apiKeyConfigured then " AI (" else "Bot (") + difficulty + ")"
  }

  /** The `gameOver` message for a finished position. */
  function ResultMessage<P>(rules: Rules<P>, g: P): string {
    if rules.isCheckmate(g) then
      (if rules.turn(g) == White then "Black wins by checkmate!" else "White wins by checkmate!")
    else if rules.isDraw(g) then "Game ended in a draw!"
    else ""
  }

  /** The checkmate message names the side NOT to move as the winner. */
  lemma CheckmateNamesSideToMoveAsLoser<P>(rules: Rules<P>, g: P)
    requires rules.isCheckmate(g)
    ensures ResultMessage(rules, g) ==
      (if Opposite(rules.turn(g)) == White then "White" else "Black") + " wins by checkmate!"
  {
  }

  // -------------------------------------------------------- join transitions

  /**
    `player-join` with a room code (index.js:172-211): an absent code or a
    room with two or more seats is refused with nothing changed; otherwise
    the socket takes a black seat at the end of the room's list and the
    clock is started; no other room and no waiting entry changes.
   */
  ghost predicate JoinedByCode<P>(before: Tables<P>, after: Tables<P>, sid: string, name: string, code: string, out: JoinOutcome) {
    after.order == before.order && after.waiting == before.waiting &&
    if code !in before.rooms then
      out == RoomNotFound && after.rooms == before.rooms
    else if |before.rooms[code].players| >= 2 then
      out == RoomFull && after.rooms == before.rooms
    else
      var r := before.rooms[code];
      out == JoinedAsBlack(code, FormatTime(r.whiteTime), FormatTime(r.blackTime)) &&
      after.rooms == before.rooms[code := JoinAndStart(r, Player(sid, name, Black))]
  }

  /**
    `player-join` without a room code (index.js:214-292): the first waiting
    entry with an equal time control is consumed and its room gains a black
    seat, with no check of the room's size; if that room no longer exists the
    handler throws and nothing changes. With no such entry, a new room under
    the fresh code gets one white seat and both clocks at the table's value,
    and a waiting entry is appended.
   */
  ghost predicate Matchmade<P>(before: Tables<P>, after: Tables<P>, start: P, sid: string, name: string,
                               timeLimit: string, freshCode: string, out: JoinOutcome) {
    match WaitingIndexByTime(before.waiting, timeLimit)
    case Some(i) =>
      var roomId := before.waiting[i].roomId;
      if roomId !in before.rooms then
        out == Crashed && after == before
      else
        var r := before.rooms[roomId];
        out == JoinedAsBlack(roomId, FormatTime(r.whiteTime), FormatTime(r.blackTime)) &&
        after == Tables(before.rooms[roomId := JoinAndStart(r, Player(sid, name, Black))],
                        before.order, RemoveAt(before.waiting, i))
    case None =>
      var seconds := TimeLimitSeconds(timeLimit);
      out == CreatedAsWhite(freshCode, FormatTime(seconds), FormatTime(seconds)) &&
      after == Tables(before.rooms[freshCode := WaitingRoom(start, sid, name, seconds)],
                      before.order + [freshCode],
                      before.waiting + [WaitingEntry(sid, name, timeLimit, freshCode)])
  }

  /** The first half of `disconnect` (index.js:415-426): the socket's first waiting entry goes, and its room too if it has exactly one seat. */
  function DropWaitingEntry<P>(t: Tables<P>, sid: string): Tables<P> {
    match WaitingIndexById(t.waiting, sid)
    case None => t
    case Some(i) =>
      var roomId := t.waiting[i].roomId;
      if roomId in t.rooms && |t.rooms[roomId].players| == 1 then
        Tables(t.rooms - {roomId}, Without(t.order, roomId), RemoveAt(t.waiting, i))
      else
        Tables(t.rooms, t.order, RemoveAt(t.waiting, i))
  }

  // ------------------------------------------------------------ coordinator

  class Coordinator<P> {
    /** The chess library, and the position of `new Chess()`. */
    const rules: Rules<P>
    const initialPosition: P

    /** `gameRooms`, with its insertion order, and `waitingPlayers`. */
    var rooms: map<string, Room<P>>
    var order: seq<string>
    var waiting: seq<WaitingEntry>

    /**
      The insertion order lists each room code once; every room in the table
      has both clocks positive (a clock that reaches zero removes its room).
     */
    ghost predicate Valid()
      reads this
    {
      WellFormed(rooms, order)
    }

    function State(): Tables<P>
      reads this
    {
      Tables(rooms, order, waiting)
    }

    constructor (rules: Rules<P>, initialPosition: P)
      ensures Valid()
      ensures this.rules == rules && this.initialPosition == initialPosition
      ensures rooms == map[] && order == [] && waiting == []
    {
      this.rules := rules;
      this.initialPosition := initialPosition;
      rooms := map[];
      order := [];
      waiting := [];
    }

    /** `gameRooms.delete(code)`. */
    method DeleteRoom(code: string)
      requires Valid()
      modifies this
      ensures Valid()
      ensures rooms == old(rooms) - {code} && order == Without(old(order), code) && waiting == old(waiting)
    {
      RemoveRoomWellFormed(rooms, order, code);
      rooms := rooms - {code};
      order := Without(order, code);
    }

    /** `startGameTimer` (index.js:39-47): sets the interval unless the room is absent or finished. */
    method StartGameTimer(code: string)
      requires Valid()
      modifies this
      ensures Valid() && order == old(order) && waiting == old(waiting)
      ensures rooms == TimerStarted(old(rooms), code)
    {
      if code !in rooms || rooms[code].gameOver {
        return;
      }
      SetRoomWellFormed(rooms, order, code, rooms[code].(timerRunning := true));
      rooms := rooms[code := rooms[code].(timerRunning := true)];
    }

    /**
      The scan `for (const [id, room] of gameRooms.entries())` with its
      early `break`: the position, in insertion order, of the first room
      that seats `sid`, or `|order|`.
     */
    method FindRoomOf(sid: string) returns (k: nat)
      requires Valid()
      ensures k <= |order| && (k < |order| ==> Seats(rooms[order[k]], sid))
      ensures forall j :: 0 <= j < k ==> !Seats(rooms[order[j]], sid)
      ensures k == FirstRoomWith(order, rooms, sid)
    {
      k := 0;
      while k < |order| && !Seats(rooms[order[k]], sid)
        invariant k <= |order|
        invariant forall j :: 0 <= j < k ==> !Seats(rooms[order[j]], sid)
      {
        k := k + 1;
      }
    }

    /** The `player-join` handler (index.js:162-293): a non-empty room code joins that room, an empty one matchmakes. */
    method PlayerJoin(sid: string, name: string, timeLimit: string, roomCode: string, freshCode: string)
      returns (out: JoinOutcome)
      requires Valid() && freshCode !in rooms
      modifies this
      ensures Valid()
      ensures roomCode != "" ==> JoinedByCode(old(State()), State(), sid, name, roomCode, out)
      ensures roomCode == "" ==> Matchmade(old(State()), State(), initialPosition, sid, name, timeLimit, freshCode, out)
    {
      if roomCode != "" {
        out := JoinByCode(sid, name, roomCode);
      } else {
        out := Matchmake(sid, name, timeLimit, freshCode);
      }
    }

    /** Joining a room by its code (index.js:172-211). */
    method JoinByCode(sid: string, name: string, code: string) returns (out: JoinOutcome)
      requires Valid()
      modifies this
      ensures Valid()
      ensures JoinedByCode(old(State()), State(), sid, name, code, out)
    {
      if code !in rooms {
        out := RoomNotFound;
        return;
      }
      var room := rooms[code];
      if |room.players| >= 2 {
        out := RoomFull;
        return;
      }
      ghost var before := State();
      var seated := room.(players := room.players + [Player(sid, name, Black)]);
      SetRoomWellFormed(rooms, order, code, seated);
      rooms := rooms[code := seated];
      out := JoinedAsBlack(code, FormatTime(seated.whiteTime), FormatTime(seated.blackTime));
      StartGameTimer(code);
      SeatThenStart(before.rooms, code, room, Player(sid, name, Black));
    }

    /** Matchmaking (index.js:214-292); `freshCode` stands for `generateRoomCode()`. */
    method Matchmake(sid: string, name: string, timeLimit: string, freshCode: string) returns (out: JoinOutcome)
      requires Valid() && freshCode !in rooms
      modifies this
      ensures Valid()
      ensures Matchmade(old(State()), State(), initialPosition, sid, name, timeLimit, freshCode, out)
    {
      var seconds := TimeLimitSeconds(timeLimit);
      var found := WaitingIndexByTime(waiting, timeLimit);
      if found.Some? {
        var roomId := waiting[found.value].roomId;
        if roomId !in rooms {
          // `room` is undefined and `room.players.push` throws.
          out := Crashed;
          return;
        }
        ghost var before := State();
        var room := rooms[roomId];
        var seated := room.(players := room.players + [Player(sid, name, Black)]);
        SetRoomWellFormed(rooms, order, roomId, seated);
        rooms := rooms[roomId := seated];
        out := JoinedAsBlack(roomId, FormatTime(seated.whiteTime), FormatTime(seated.blackTime));
        waiting := RemoveAt(waiting, found.value);
        StartGameTimer(roomId);
        SeatThenStart(before.rooms, roomId, room, Player(sid, name, Black));
      } else {
        SetRoomWellFormed(rooms, order, freshCode, WaitingRoom(initialPosition, sid, name, seconds));
        rooms := rooms[freshCode := WaitingRoom(initialPosition, sid, name, seconds)];
        order := WithKey(order, freshCode);
        waiting := waiting + [WaitingEntry(sid, name, timeLimit, freshCode)];
        out := CreatedAsWhite(freshCode, FormatTime(seconds), FormatTime(seconds));
      }
    }

    /**
      `create-bot-game` (index.js:295-355): a room under a fresh code,
      added last in insertion order, with the human as white and the bot
      (`id 'bot'`) as black, equal clocks from the table, the clock started;
      the waiting list and every other room are untouched.
     */
    method CreateBotGame(sid: string, playerName: string, timeLimit: string, difficulty: string,
                         apiKeyConfigured: bool, freshCode: string) returns (out: JoinOutcome)
      requires Valid() && freshCode !in rooms
      modifies this
      ensures Valid()
      ensures waiting == old(waiting) && order == old(order) + [freshCode]
      ensures rooms.Keys == old(rooms).Keys + {freshCode}
      ensures forall c :: c in old(rooms) ==> rooms[c] == old(rooms)[c]
      ensures var r := rooms[freshCode];
        r.players == [Player(sid, playerName, White), Player("bot", BotName(apiKeyConfigured, difficulty), Black)] &&
        r.whiteTime == r.blackTime == TimeLimitSeconds(timeLimit) &&
        r.game == initialPosition && r.isBot && r.botDifficulty == difficulty &&
        !r.gameOver && r.timerRunning
      ensures out == CreatedAsWhite(freshCode, FormatTime(TimeLimitSeconds(timeLimit)), FormatTime(TimeLimitSeconds(timeLimit)))
    {
      var seconds := TimeLimitSeconds(timeLimit);
      var botName := BotName(apiKeyConfigured, difficulty);
      var room := Room(initialPosition,
        [Player(sid, playerName, White), Player("bot", botName, Black)],
        seconds, seconds, false, false, true, difficulty);
      SetRoomWellFormed(rooms, order, freshCode, room);
      rooms := rooms[freshCode := room];
      order := WithKey(order, freshCode);
      out := CreatedAsWhite(freshCode, FormatTime(room.whiteTime), FormatTime(room.blackTime));
      StartGameTimer(freshCode);
    }

    /**
      One call of the interval callback of `startGameTimer` (index.js:47-75).
      Only the clock of the side to move loses a second. If it reaches zero
      the room is over, the other colour wins, and the room leaves the table;
      otherwise the table holds the updated room and both clocks are
      broadcast as `mm:ss`.
     */
    method Tick(code: string) returns (out: TickOutcome<P>)
      requires Valid()
      modifies this
      ensures Valid() && waiting == old(waiting)
      ensures out.NotTicking? <==> !(code in old(rooms) && old(rooms)[code].timerRunning)
      ensures out.NotTicking? ==> rooms == old(rooms) && order == old(order)
      ensures out.Timeout? ==> ClockOf(out.finalRoom, Opposite(out.winner)) == 0
      ensures !out.NotTicking? ==>
        var r := old(rooms)[code];
        var side := rules.turn(r.game);
        var left := ClockOf(r, side) - 1;
        left <= 0 ==>
          out == Timeout(Opposite(side), WithClock(r, side, left).(gameOver := true, timerRunning := false)) &&
          rooms == old(rooms) - {code} && order == Without(old(order), code)
      ensures !out.NotTicking? ==>
        var r := old(rooms)[code];
        var side := rules.turn(r.game);
        var left := ClockOf(r, side) - 1;
        left > 0 ==>
          out == TimerUpdate(FormatTime(WithClock(r, side, left).whiteTime), FormatTime(WithClock(r, side, left).blackTime)) &&
          rooms == old(rooms)[code := WithClock(r, side, left)] && order == old(order)
    {
      if code !in rooms || !rooms[code].timerRunning {
        out := NotTicking;
        return;
      }
      var room := rooms[code];
      var currentPlayer := rules.turn(room.game);
      var left := ClockOf(room, currentPlayer) - 1;
      var ticked := WithClock(room, currentPlayer, left);
      if left <= 0 {
        assert left == 0 by { assert room.whiteTime > 0 && room.blackTime > 0; }
        out := Timeout(Opposite(currentPlayer), ticked.(timerRunning := false, gameOver := true));
        assert Opposite(out.winner) == currentPlayer;
        DeleteRoom(code);
        return;
      }
      SetRoomWellFormed(rooms, order, code, ticked);
      assert ticked == WithClock(old(rooms)[code], rules.turn(old(rooms)[code].game), ClockOf(old(rooms)[code], rules.turn(old(rooms)[code].game)) - 1);
      rooms := rooms[code := ticked];
      out := TimerUpdate(FormatTime(ticked.whiteTime), FormatTime(ticked.blackTime));
    }

    /**
      The `movePiece` handler (index.js:357-410). The first room in insertion
      order that seats the socket is the one acted on; with none, or a
      finished one, the request is ignored. A mover whose first seat's colour
      is not the side to move, or a move the rules refuse, gets `invalidMove`
      and nothing changes. An accepted move that ends the game finishes and
      removes the room; otherwise the room keeps the new position.
     */
    method MovePiece(sid: string, m: MoveRequest) returns (out: MoveOutcome<P>)
      requires Valid()
      modifies this
      ensures Valid() && waiting == old(waiting)
      ensures var k := FirstRoomWith(old(order), old(rooms), sid);
        out.Ignored? <==> k == |old(order)| || old(rooms)[old(order)[k]].gameOver
      ensures out.Ignored? || out.InvalidMove? ==> rooms == old(rooms) && order == old(order)
      ensures !out.Ignored? ==>
        var code := old(order)[FirstRoomWith(old(order), old(rooms), sid)];
        var r := old(rooms)[code];
        var seat := PlayerIndex(r.players, sid);
        var turn := rules.turn(r.game);
        var next := rules.move(r.game, m);
        (out.InvalidMove? <==> seat.None? || r.players[seat.value].color != turn || next.None?) &&
        (!out.InvalidMove? ==>
          (out.GameOver? <==> rules.isGameOver(next.value)) &&
          (out.GameOver? ==>
            out == GameOver(code, ResultMessage(rules, next.value),
                            r.(game := next.value, gameOver := true, timerRunning := false)) &&
            rooms == old(rooms) - {code} && order == Without(old(order), code)) &&
          (!out.GameOver? ==>
            rooms == old(rooms)[code := r.(game := next.value)] && order == old(order) &&
            out.roomCode == code &&
            (out.BotToMove? <==> r.isBot && rules.turn(next.value) == Black)))
      ensures out.BotToMove? ==> BotMayMove(out.roomCode)
    {
      var k := FindRoomOf(sid);
      if k == |order| || rooms[order[k]].gameOver {
        out := Ignored;
        return;
      }
      var roomId := order[k];
      var currentRoom := rooms[roomId];
      var seat := PlayerIndex(currentRoom.players, sid);
      var turn := rules.turn(currentRoom.game);
      if seat.None? ||
         (currentRoom.players[seat.value].color == White && turn != White) ||
         (currentRoom.players[seat.value].color == Black && turn != Black) {
        out := InvalidMove;
        return;
      }
      var result := rules.move(currentRoom.game, m);
      if result.None? {
        out := InvalidMove;
        return;
      }
      currentRoom := currentRoom.(game := result.value);
      if rules.isGameOver(currentRoom.game) {
        currentRoom := currentRoom.(timerRunning := false, gameOver := true);
        out := GameOver(roomId, ResultMessage(rules, currentRoom.game), currentRoom);
        DeleteRoom(roomId);
      } else {
        SetRoomWellFormed(rooms, order, roomId, currentRoom);
        rooms := rooms[roomId := currentRoom];
        if currentRoom.isBot && rules.turn(currentRoom.game) == Black {
          out := BotToMove(roomId);
        } else {
          out := Moved(roomId);
        }
      }
    }

    /** The entry guard of `makeBotMove` (index.js:81): the room exists, is not over, and black is to move. */
    predicate BotMayMove(code: string)
      reads this
    {
      code in rooms && !rooms[code].gameOver && rules.turn(rooms[code].game) == Black
    }

    /**
      The `disconnect` handler (index.js:412-446). First the socket's first
      waiting entry is removed, with its room if that room has exactly one
      seat; then the first room in insertion order that still seats the
      socket is removed, with a `playerLeft` notice unless it is a bot game.
      Every room that stays keeps its value.
     */
    method Disconnect(sid: string) returns (out: Departure)
      requires Valid()
      modifies this
      ensures Valid()
      ensures waiting == DropWaitingEntry(old(State()), sid).waiting
      ensures var mid := DropWaitingEntry(old(State()), sid);
        var k := FirstRoomWith(mid.order, mid.rooms, sid);
        if k == |mid.order| then
          out == NotInRoom && rooms == mid.rooms && order == mid.order
        else
          var code := mid.order[k];
          var r := mid.rooms[code];
          out == LeftRoom(code, r.players[PlayerIndex(r.players, sid).value].name, !r.isBot) &&
          rooms == mid.rooms - {code} && order == Without(mid.order, code)
      ensures forall c :: c in rooms ==> c in old(rooms) && rooms[c] == old(rooms)[c]
    {
      var waitingIndex := WaitingIndexById(waiting, sid);
      if waitingIndex.Some? {
        var waitingPlayer := waiting[waitingIndex.value];
        waiting := RemoveAt(waiting, waitingIndex.value);
        if waitingPlayer.roomId in rooms && |rooms[waitingPlayer.roomId].players| == 1 {
          DeleteRoom(waitingPlayer.roomId);
        }
      }
      assert State() == DropWaitingEntry(old(State()), sid);
      var k := FindRoomOf(sid);
      if k < |order| {
        var roomId := order[k];
        var room := rooms[roomId];
        var player := room.players[PlayerIndex(room.players, sid).value];
        out := LeftRoom(roomId, player.name, !room.isBot);
        DeleteRoom(roomId);
      } else {
        out := NotInRoom;
      }
    }
  }
}
