/**
  Call sequences of the coordinator that exhibit three behaviours of the
  `player-join` and `disconnect` handlers as written: a room joined by its
  code stays on the waiting list, so matchmaking can seat a third player
  in it; and a waiting entry can outlive its room, after the joiner leaves
  or after the waiting player leaves, so matchmaking can throw. All three
  hold for every chess library and every starting position.
 */
module ServerScenarios {
  import opened Wrappers
  import opened ChessRules
  import opened ServerClock
  import opened JsArrays
  import opened GameServer

  /** Matchmaking with a time control nobody waits with: a one-seat room under `code` and a waiting entry for it. */
  method OpenRoom<P>(c: Coordinator<P>, sid: string, name: string, timeLimit: string, code: string)
    requires c.Valid() && code !in c.rooms && WaitingIndexByTime(c.waiting, timeLimit) == None
    modifies c
    ensures c.Valid()
    ensures c.rooms == old(c.rooms)[code := WaitingRoom(c.initialPosition, sid, name, TimeLimitSeconds(timeLimit))]
    ensures c.order == old(c.order) + [code] && c.waiting == old(c.waiting) + [WaitingEntry(sid, name, timeLimit, code)]
  {
    var out := c.PlayerJoin(sid, name, timeLimit, "", code);
  }

  /** Joining a one-seat room by its code: a black seat and a started clock; the waiting list is not touched. */
  method JoinOpenRoom<P>(c: Coordinator<P>, sid: string, name: string, code: string)
    requires c.Valid() && code in c.rooms && |c.rooms[code].players| == 1
    modifies c
    ensures c.Valid()
    ensures c.rooms == old(c.rooms)[code := JoinAndStart(old(c.rooms)[code], Player(sid, name, Black))]
    ensures c.order == old(c.order) && c.waiting == old(c.waiting)
  {
    var out := c.JoinByCode(sid, name, code);
  }

  /** Matchmaking that finds an entry whose room exists: that room gains a black seat, whatever its size, and the entry goes. */
  method PairWithEntry<P>(c: Coordinator<P>, sid: string, name: string, timeLimit: string, code: string)
    requires c.Valid() && code !in c.rooms && WaitingIndexByTime(c.waiting, timeLimit).Some?
    requires c.waiting[WaitingIndexByTime(c.waiting, timeLimit).value].roomId in c.rooms
    modifies c
    ensures c.Valid()
    ensures var i := WaitingIndexByTime(old(c.waiting), timeLimit).value;
      var roomId := old(c.waiting)[i].roomId;
      c.rooms == old(c.rooms)[roomId := JoinAndStart(old(c.rooms)[roomId], Player(sid, name, Black))] &&
      c.order == old(c.order) && c.waiting == RemoveAt(old(c.waiting), i)
  {
    var out := c.PlayerJoin(sid, name, timeLimit, "", code);
  }

  /**
    A matchmakes and gets room R1; B joins R1 by its code; C matchmakes with
    the same time control and is seated in R1 as well, which now has three
    players, two of them black.
   */
  method ThirdPlayerJoins<P>(rules: Rules<P>, start: P) returns (seated: seq<Player>)
    ensures seated == [Player("A", "Ann", White), Player("B", "Ben", Black), Player("C", "Cat", Black)]
  {
    var c := new Coordinator(rules, start);
    OpenRoom(c, "A", "Ann", "5min", "R1");
    JoinOpenRoom(c, "B", "Ben", "R1");
    assert c.waiting == [WaitingEntry("A", "Ann", "5min", "R1")];
    assert WaitingIndexByTime(c.waiting, "5min") == Some(0);
    PairWithEntry(c, "C", "Cat", "5min", "R3");
    seated := c.rooms["R1"].players;
  }

  /**
    A matchmakes and gets room R1; B joins R1 by its code and disconnects,
    which removes R1 but not A's waiting entry; C then matchmakes with the
    same time control, finds that entry, and the handler throws.
   */
  method StaleWaitingEntry<P>(rules: Rules<P>, start: P) returns (out: JoinOutcome)
    ensures out == Crashed
  {
    var c := new Coordinator(rules, start);
    OpenRoom(c, "A", "Ann", "5min", "R1");
    JoinOpenRoom(c, "B", "Ben", "R1");
    assert c.order == ["R1"];
    assert c.rooms["R1"].players == [Player("A", "Ann", White), Player("B", "Ben", Black)];
    assert c.rooms["R1"].players[1].id == "B";
    assert FirstRoomWith(c.order, c.rooms, "B") == 0;
    ghost var before := c.State();
    assert WaitingIndexById(c.waiting, "B") == None;
    assert DropWaitingEntry(before, "B") == before;
    var gone := c.Disconnect("B");
    assert "R1" !in c.rooms;
    assert c.waiting == [WaitingEntry("A", "Ann", "5min", "R1")];
    out := c.PlayerJoin("C", "Cat", "5min", "", "R3");
  }

  /**
    A matchmakes with one time control and gets R1, then with another and
    gets R2, then disconnects: the first waiting entry goes together with
    R1, the room scan removes R2, and the second entry stays behind naming
    R2; B's matchmaking with that time control then throws.
   */
  method StrandedByDisconnect<P>(rules: Rules<P>, start: P) returns (out: JoinOutcome)
    ensures out == Crashed
  {
    var c := new Coordinator(rules, start);
    OpenRoom(c, "A", "Ann", "5min", "R1");
    assert WaitingIndexByTime(c.waiting, "1min") == None;
    OpenRoom(c, "A", "Ann", "1min", "R2");
    assert c.order == ["R1", "R2"];
    ghost var before := c.State();
    assert WaitingIndexById(c.waiting, "A") == Some(0);
    ghost var mid := DropWaitingEntry(before, "A");
    assert mid.order == ["R2"] && mid.waiting == [WaitingEntry("A", "Ann", "1min", "R2")];
    assert mid.rooms["R2"].players[0].id == "A";
    assert FirstRoomWith(mid.order, mid.rooms, "A") == 0;
    var gone := c.Disconnect("A");
    assert "R2" !in c.rooms;
    assert c.waiting == [WaitingEntry("A", "Ann", "1min", "R2")];
    out := c.PlayerJoin("B", "Ben", "1min", "", "R3");
  }
}
