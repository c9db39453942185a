/**
  When a room can hold more than two players. Joining by code checks the
  room's size, so it never seats a third player. Matchmaking does not
  check: it keeps the bound only while every waiting entry names a room
  that is still in the table with its single creator in it, and no two
  entries name the same room. Two handlers break that condition. Joining by
  code leaves the waiting entry behind. A disconnect removes only the
  socket's first waiting entry, yet it may remove a room that another of
  its entries names. The scenarios in ServerScenarios show the consequences.
 */
module SeatBounds {
  import opened Wrappers
  import opened JsArrays
  import opened ChessRules
  import opened ServerClock
  import opened GameServer

  /** No room seats more than two players. */
  ghost predicate AtMostTwoSeats<P>(rooms: map<string, Room<P>>) {
    forall c :: c in rooms ==> |rooms[c].players| <= 2
  }

  /** Every waiting entry names a room of the table seating one player, and no two entries name the same room. */
  ghost predicate WaitingRoomsOpen<P>(t: Tables<P>) {
    (forall i :: 0 <= i < |t.waiting| ==>
      t.waiting[i].roomId in t.rooms && |t.rooms[t.waiting[i].roomId].players| == 1) &&
    (forall i, j :: 0 <= i < j < |t.waiting| ==> t.waiting[i].roomId != t.waiting[j].roomId)
  }

  /** Joining by code never seats a third player. */
  lemma JoinByCodeKeepsSeatBound<P>(before: Tables<P>, after: Tables<P>, sid: string, name: string,
                                    code: string, out: JoinOutcome)
    requires JoinedByCode(before, after, sid, name, code, out)
    requires AtMostTwoSeats(before.rooms)
    ensures AtMostTwoSeats(after.rooms)
    ensures out.JoinedAsBlack? ==> |after.rooms[code].players| == |before.rooms[code].players| + 1
  {
    if code in before.rooms && |before.rooms[code].players| < 2 {
      var r := before.rooms[code];
      assert after.rooms == before.rooms[code := JoinAndStart(r, Player(sid, name, Black))];
      forall c | c in after.rooms ensures |after.rooms[c].players| <= 2 {
        if c != code {
          assert after.rooms[c] == before.rooms[c];
        }
      }
    }
  }

  /**
    Joining by code a room that someone is waiting in leaves the waiting
    entry behind, now naming a room with two players: the condition under
    which matchmaking keeps the bound no longer holds.
   */
  lemma JoinByCodeStrandsWaitingEntry<P>(before: Tables<P>, after: Tables<P>, sid: string, name: string,
                                         code: string, out: JoinOutcome, i: nat)
    requires JoinedByCode(before, after, sid, name, code, out)
    requires WaitingRoomsOpen(before) && i < |before.waiting| && before.waiting[i].roomId == code
    ensures out.JoinedAsBlack?
    ensures after.waiting[i].roomId == code && |after.rooms[code].players| == 2
    ensures !WaitingRoomsOpen(after)
  {
  }

  /**
    While the waiting entries name open rooms, matchmaking does not throw,
    seats no third player, and leaves the waiting entries naming open rooms.
   */
  lemma MatchmakingKeepsSeatBound<P>(before: Tables<P>, after: Tables<P>, start: P, sid: string, name: string,
                                     timeLimit: string, freshCode: string, out: JoinOutcome)
    requires Matchmade(before, after, start, sid, name, timeLimit, freshCode, out)
    requires freshCode !in before.rooms
    requires AtMostTwoSeats(before.rooms) && WaitingRoomsOpen(before)
    ensures out != Crashed
    ensures AtMostTwoSeats(after.rooms) && WaitingRoomsOpen(after)
  {
    match WaitingIndexByTime(before.waiting, timeLimit)
    case Some(i) =>
      PairingKeepsSeatBound(before, after, i, Player(sid, name, Black));
    case None =>
      var seconds := TimeLimitSeconds(timeLimit);
      CreationKeepsSeatBound(before, after, WaitingRoom(start, sid, name, seconds),
                             WaitingEntry(sid, name, timeLimit, freshCode));
  }

  /** Consuming entry `i` and seating `p` in its room. */
  lemma PairingKeepsSeatBound<P>(before: Tables<P>, after: Tables<P>, i: nat, p: Player)
    requires i < |before.waiting| && AtMostTwoSeats(before.rooms) && WaitingRoomsOpen(before)
    requires var roomId := before.waiting[i].roomId;
      after == Tables(before.rooms[roomId := JoinAndStart(before.rooms[roomId], p)],
                      before.order, RemoveAt(before.waiting, i))
    ensures AtMostTwoSeats(after.rooms) && WaitingRoomsOpen(after)
  {
    var roomId := before.waiting[i].roomId;
    assert |after.rooms[roomId].players| == 2;
    forall c | c in after.rooms ensures |after.rooms[c].players| <= 2 {
      if c != roomId {
        assert after.rooms[c] == before.rooms[c];
      }
    }
    forall k | 0 <= k < |after.waiting|
      ensures after.waiting[k].roomId in after.rooms && |after.rooms[after.waiting[k].roomId].players| == 1
    {
      var k' := if k < i then k else k + 1;
      assert after.waiting[k] == before.waiting[k'];
      assert before.waiting[k'].roomId != roomId;
    }
    forall a, b | 0 <= a < b < |after.waiting|
      ensures after.waiting[a].roomId != after.waiting[b].roomId
    {
      var a' := if a < i then a else a + 1;
      var b' := if b < i then b else b + 1;
      assert after.waiting[a] == before.waiting[a'] && after.waiting[b] == before.waiting[b'];
    }
  }

  /** Adding a one-player room under a code not yet in the table, with its waiting entry. */
  lemma CreationKeepsSeatBound<P>(before: Tables<P>, after: Tables<P>, r: Room<P>, w: WaitingEntry)
    requires w.roomId !in before.rooms && |r.players| == 1
    requires AtMostTwoSeats(before.rooms) && WaitingRoomsOpen(before)
    requires after.rooms == before.rooms[w.roomId := r] && after.waiting == before.waiting + [w]
    ensures AtMostTwoSeats(after.rooms) && WaitingRoomsOpen(after)
  {
    forall c | c in after.rooms ensures |after.rooms[c].players| <= 2 {
      if c != w.roomId {
        assert after.rooms[c] == before.rooms[c];
      }
    }
    forall k | 0 <= k < |after.waiting|
      ensures after.waiting[k].roomId in after.rooms && |after.rooms[after.waiting[k].roomId].players| == 1
    {
      if k < |before.waiting| {
        assert after.waiting[k] == before.waiting[k];
      }
    }
  }
}
