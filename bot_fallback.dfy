/**
  The offline parts of claude-chess-ai.js: the thinking-time rule, the
  piece values, the random and the rule-based fallback move choices, and
  the game-phase rule of the prompt. Each `Math.random()` draw is a
  parameter in [0, 1).
 */
module BotFallback {
  import opened Wrappers
  import opened JsText
  import opened JsArrays

  // ---------------------------------------------------------- thinking time

  /** The `baseTime` table in milliseconds; another difficulty has none. */
  function BaseThinkingTime(difficulty: string): (r: Option<int>)
  {
    match difficulty
    case "easy" => Some(500)
    case "medium" => Some(1500)
    case "hard" => Some(3000)
    case _ => None
  }

  /**
    `calculateThinkingTime(difficulty, timeRemaining)`, `timeRemaining` in
    seconds or `None` for `null`. A remaining time that is non-zero and under
    a minute caps the base at a tenth of it, `t * 1000 * 0.1` ms; an unknown
    difficulty yields no number.
   */
  function CalculateThinkingTime(difficulty: string, timeRemaining: Option<int>): (r: Option<int>)
  {
    match BaseThinkingTime(difficulty)
    case None => None
    case Some(base) =>
      match timeRemaining
      case Some(t) =>
        if t != 0 && t < 60 then Some(if base <= 100 * t then base else 100 * t) else Some(base)
      case None => Some(base)
  }

  /** The base values, the cap, and that the result never exceeds the base. */
  lemma ThinkingTimeRule(difficulty: string, timeRemaining: Option<int>)
    ensures difficulty == "easy" ==> BaseThinkingTime(difficulty) == Some(500)
    ensures difficulty == "medium" ==> BaseThinkingTime(difficulty) == Some(1500)
    ensures difficulty == "hard" ==> BaseThinkingTime(difficulty) == Some(3000)
    ensures difficulty !in {"easy", "medium", "hard"} ==> CalculateThinkingTime(difficulty, timeRemaining) == None
    ensures var r := CalculateThinkingTime(difficulty, timeRemaining);
      r.Some? ==> BaseThinkingTime(difficulty).Some? && r.value <= BaseThinkingTime(difficulty).value
    ensures var r := CalculateThinkingTime(difficulty, timeRemaining);
      r.Some? && timeRemaining.Some? && timeRemaining.value != 0 && timeRemaining.value < 60 ==>
        r.value == Min(BaseThinkingTime(difficulty).value, 100 * timeRemaining.value)
    ensures var r := CalculateThinkingTime(difficulty, timeRemaining);
      r.Some? && !(timeRemaining.Some? && timeRemaining.value != 0 && timeRemaining.value < 60) ==>
        r == BaseThinkingTime(difficulty)
  {
  }

  function Min(a: int, b: int): (m: int)
    ensures m <= a && m <= b && (m == a || m == b)
  {
    if a <= b then a else b
  }

  /** With at least half a minute left the cap never bites, for any known difficulty. */
  lemma ThinkingTimeFullAfterHalfMinute(difficulty: string, t: int)
    requires t >= 30
    ensures CalculateThinkingTime(difficulty, Some(t)) == BaseThinkingTime(difficulty)
  {
  }

  /** More time left never means less thinking time (for positive remaining times). */
  lemma ThinkingTimeMonotone(difficulty: string, t1: int, t2: int)
    requires 0 < t1 <= t2 && BaseThinkingTime(difficulty).Some?
    ensures CalculateThinkingTime(difficulty, Some(t1)).value <= CalculateThinkingTime(difficulty, Some(t2)).value
  {
  }

  // ----------------------------------------------------------- piece values

  /** `getPieceValue`: the `values` table with `|| 0` for a missing key. */
  function PieceValue(piece: string): (v: nat)
    ensures v <= 9
    ensures v > 0 ==> piece in {"p", "n", "b", "r", "q"}
  {
    match piece
    case "p" => 1
    case "n" => 3
    case "b" => 3
    case "r" => 5
    case "q" => 9
    case "k" => 0
    case _ => 0
  }

  /** The table's order: queen, rook, then knight and bishop alike, then pawn, then king. */
  lemma PieceValueOrder()
    ensures PieceValue("q") > PieceValue("r") > PieceValue("n") == PieceValue("b") > PieceValue("p") > PieceValue("k") == 0
    ensures forall piece :: PieceValue(piece) <= PieceValue("q")
  {
  }

  // ----------------------------------------------------------- random picks

  /** `Math.floor(roll * n)` for a draw `roll` of `Math.random()`. */
  function RandomIndex(roll: real, n: nat): (i: nat)
    requires 0.0 <= roll < 1.0 && n > 0
    ensures i < n
  {
    assert roll * (n as real) < n as real;
    (roll * (n as real)).Floor
  }

  /** `getRandomMove`: `null` for no moves, else the move at the drawn index. */
  function GetRandomMove(moves: seq<string>, roll: real): (r: Option<string>)
    requires 0.0 <= roll < 1.0
    ensures r.None? <==> |moves| == 0
    ensures r.Some? ==> r.value in moves
  {
    if |moves| > 0 then Some(moves[RandomIndex(roll, |moves|)]) else None
  }

  // ---------------------------------------------------------- fallback move

  /** A move of `game.moves({ verbose: true })`; `captured` is `""` when nothing is taken. */
  datatype VerboseMove = VerboseMove(san: string, piece: string, captured: string)

  predicate IsCapture(m: VerboseMove) { m.captured != "" }
  predicate IsCheck(m: VerboseMove) { Contains(m.san, "+") }
  predicate IsMate(m: VerboseMove) { Contains(m.san, "#") }

  /** The easy level's "good" moves: captures and checks. */
  predicate IsGood(m: VerboseMove) { IsCapture(m) || IsCheck(m) }

  /** The medium level's tactical moves: captures, checks, `x` in the notation, knight and bishop moves. */
  predicate IsTactical(m: VerboseMove) {
    IsCapture(m) || IsCheck(m) || Contains(m.san, "x") || m.piece == "n" || m.piece == "b"
  }

  function CapturedValue(m: VerboseMove): nat {
    PieceValue(m.captured)
  }

  predicate SortedByCapturedValue(s: seq<VerboseMove>) {
    forall p, q :: 0 <= p < q < |s| ==> CapturedValue(s[p]) >= CapturedValue(s[q])
  }

  /** The position of the earliest move whose captured value is the largest of the list. */
  function FirstMaximal(s: seq<VerboseMove>): (k: nat)
    requires |s| > 0
    ensures k < |s|
    ensures forall j :: 0 <= j < |s| ==> CapturedValue(s[j]) <= CapturedValue(s[k])
    ensures forall j :: 0 <= j < k ==> CapturedValue(s[j]) < CapturedValue(s[k])
  {
    if |s| == 1 then 0
    else
      var k := FirstMaximal(s[..|s| - 1]);
      if CapturedValue(s[|s| - 1]) > CapturedValue(s[k]) then |s| - 1 else k
  }

  /**
    `captureMoves.sort((a, b) => getPieceValue(b.captured) - getPieceValue(a.captured))`,
    as an insertion sort that moves an element left only past strictly
    smaller values. The sort is stable, so the head is the earliest of the
    moves with the largest captured value.
   */
  method SortByCapturedValue(a: array<VerboseMove>)
    modifies a
    ensures SortedByCapturedValue(a[..])
    ensures multiset(a[..]) == multiset(old(a[..]))
    ensures a.Length > 0 ==> a[0] == old(a[..])[FirstMaximal(old(a[..]))]
  {
    ghost var orig := a[..];
    var i := 0;
    while i < a.Length
      invariant i <= a.Length
      invariant SortedBelow(a[..], i)
      invariant multiset(a[..]) == multiset(orig)
      invariant Agrees(a[..], orig, i)
      invariant i > 0 ==> a[0] == orig[FirstMaximal(orig[..i])]
    {
      ghost var pre := a[..];
      InsertLeft(a, i);
      HeadStep(orig, i, pre, a[..]);
      i := i + 1;
    }
    assert orig[..a.Length] == orig;
  }

  /** The first `n` elements are in descending order of captured value. */
  predicate SortedBelow(s: seq<VerboseMove>, n: nat)
    requires n <= |s|
  {
    forall p, q :: 0 <= p < q < n ==> CapturedValue(s[p]) >= CapturedValue(s[q])
  }

  /** `s` and `o` have the same length and agree from position `from` on. */
  predicate Agrees(s: seq<VerboseMove>, o: seq<VerboseMove>, from: nat) {
    |s| == |o| && forall k :: from <= k < |s| ==> s[k] == o[k]
  }

  /**
    What one pass does to `o`: the prefix up to `i` is in order, nothing is
    lost or duplicated, nothing after `i` moves, and the head becomes the
    element from `i` exactly when it beats the old head.
   */
  predicate PassOutcome(s: seq<VerboseMove>, o: seq<VerboseMove>, i: nat)
    requires i < |o|
  {
    Agrees(s, o, i + 1) && SortedBelow(s, i + 1) && multiset(s) == multiset(o) &&
    s[0] == (if i > 0 && CapturedValue(o[i]) > CapturedValue(o[0]) then o[i] else o[0])
  }

  /** Taking in one more element keeps the head at the earliest maximal element seen so far. */
  lemma HeadStep(orig: seq<VerboseMove>, i: nat, pre: seq<VerboseMove>, post: seq<VerboseMove>)
    requires i < |orig| && Agrees(pre, orig, i) && PassOutcome(post, pre, i)
    requires i > 0 ==> pre[0] == orig[FirstMaximal(orig[..i])]
    ensures Agrees(post, orig, i + 1)
    ensures post[0] == orig[FirstMaximal(orig[..i + 1])]
  {
    assert orig[..i + 1][..i] == orig[..i];
  }

  /** One pass of the insertion sort: `a[i]` moves left past the strictly smaller values before it. */
  method InsertLeft(a: array<VerboseMove>, i: nat)
    requires i < a.Length && SortedBelow(a[..], i)
    modifies a
    ensures PassOutcome(a[..], old(a[..]), i)
  {
    ghost var o := a[..];
    var j := i;
    while j > 0 && CapturedValue(a[j - 1]) < CapturedValue(a[j])
      invariant 0 <= j <= i < a.Length
      invariant multiset(a[..]) == multiset(o)
      invariant Arranged(a[..], i, j)
      invariant Shifted(a[..], o, i, j)
    {
      ghost var s := a[..];
      a[j - 1], a[j] := a[j], a[j - 1];
      assert a[..] == s[j - 1 := s[j]][j := s[j - 1]];
      SwapStep(s, i, j);
      ShiftStep(s, o, i, j);
      j := j - 1;
    }
    PassDone(a[..], o, i, j);
  }

  /** The end of a pass: the prefix up to `i` is in order, and the head is the new element exactly when it beats the old head. */
  lemma PassDone(s: seq<VerboseMove>, o: seq<VerboseMove>, i: nat, j: nat)
    requires j <= i < |o| == |s| && Arranged(s, i, j) && Shifted(s, o, i, j)
    requires j == 0 || CapturedValue(s[j - 1]) >= CapturedValue(s[j])
    requires SortedBelow(o, i) && multiset(s) == multiset(o)
    ensures PassOutcome(s, o, i)
  {
    ArrangedDone(s, i, j);
    if 0 < j {
      assert CapturedValue(o[0]) >= CapturedValue(o[j - 1]);
    } else if 0 < i {
      assert s[1] == o[0];
    }
  }

  /**
    The layout inside a pass: the element that started at `i` sits at `j`,
    the ones from `j` to `i - 1` have moved one place right, and the rest
    are where they were.
   */
  predicate Shifted(s: seq<VerboseMove>, o: seq<VerboseMove>, i: nat, j: nat)
    requires j <= i < |o|
  {
    |s| == |o| && s[j] == o[i] &&
    (forall k :: 0 <= k < j ==> s[k] == o[k]) &&
    (forall k :: j < k <= i ==> s[k] == o[k - 1]) &&
    (forall k :: i < k < |s| ==> s[k] == o[k])
  }

  lemma ShiftStep(s: seq<VerboseMove>, o: seq<VerboseMove>, i: nat, j: nat)
    requires 0 < j <= i < |o| && Shifted(s, o, i, j)
    ensures Shifted(s[j - 1 := s[j]][j := s[j - 1]], o, i, j - 1)
  {
  }

  /**
    The state inside a pass: apart from position `j`, the prefix up to `i`
    is in order, and everything after `j` up to `i` is strictly smaller
    than the element at `j`.
   */
  predicate Arranged(s: seq<VerboseMove>, i: nat, j: nat)
    requires j <= i < |s|
  {
    (forall p, q :: 0 <= p < q <= i && p != j && q != j ==> CapturedValue(s[p]) >= CapturedValue(s[q])) &&
    (forall q :: j < q <= i ==> CapturedValue(s[q]) < CapturedValue(s[j]))
  }

  lemma SwapStep(s: seq<VerboseMove>, i: nat, j: nat)
    requires 0 < j <= i < |s| && Arranged(s, i, j)
    requires CapturedValue(s[j - 1]) < CapturedValue(s[j])
    ensures multiset(s[j - 1 := s[j]][j := s[j - 1]]) == multiset(s)
    ensures Arranged(s[j - 1 := s[j]][j := s[j - 1]], i, j - 1)
  {
  }

  lemma ArrangedDone(s: seq<VerboseMove>, i: nat, j: nat)
    requires j <= i < |s| && Arranged(s, i, j)
    requires j == 0 || CapturedValue(s[j - 1]) >= CapturedValue(s[j])
    ensures forall p, q :: 0 <= p < q <= i ==> CapturedValue(s[p]) >= CapturedValue(s[q])
  {
    forall p, q | 0 <= p < q <= i
      ensures CapturedValue(s[p]) >= CapturedValue(s[q])
    {
      if q == j && p < j - 1 {
        assert CapturedValue(s[p]) >= CapturedValue(s[j - 1]);
      }
    }
  }

  /** The position of some move of `moves` that satisfies `p` and has name `san`. */
  ghost predicate NamesSome(moves: seq<VerboseMove>, p: VerboseMove -> bool, san: string) {
    exists i :: 0 <= i < |moves| && p(moves[i]) && moves[i].san == san
  }

  predicate AnyMove(m: VerboseMove) { true }

  /** An element of a filtered list names a move of the list that passes the filter. */
  lemma PickFromFiltered(moves: seq<VerboseMove>, keep: VerboseMove -> bool, k: nat)
    requires k < |Filter(moves, keep)|
    ensures NamesSome(moves, keep, Filter(moves, keep)[k].san)
  {
    var m := Filter(moves, keep)[k];
    var i :| 0 <= i < |moves| && moves[i] == m;
  }

  /**
    `getSmartFallbackMove(game, difficulty)` over the verbose move list.
    `coin` is the easy level's 30% draw, `roll` the draw of the index.
   */
  method SmartFallbackMove(moves: seq<VerboseMove>, difficulty: string, coin: real, roll: real)
    returns (r: Option<string>)
    requires 0.0 <= coin < 1.0 && 0.0 <= roll < 1.0
    ensures r.None? <==> |moves| == 0
    ensures r.Some? ==> NamesSome(moves, AnyMove, r.value)
    ensures difficulty == "easy" && r.Some? && coin < 0.3 && (exists i :: 0 <= i < |moves| && IsGood(moves[i])) ==>
      NamesSome(moves, IsGood, r.value)
    ensures difficulty == "medium" && (exists i :: 0 <= i < |moves| && IsTactical(moves[i])) ==>
      r.Some? && NamesSome(moves, IsTactical, r.value)
    ensures difficulty == "hard" && FindFirst(moves, IsMate).Some? ==>
      r == Some(moves[FindFirst(moves, IsMate).value].san)
    ensures difficulty == "hard" && FindFirst(moves, IsMate).None? && (exists i :: 0 <= i < |moves| && IsCheck(moves[i])) ==>
      r.Some? && NamesSome(moves, IsCheck, r.value)
    ensures difficulty == "hard" && FindFirst(moves, IsMate).None? && FindFirst(moves, IsCheck).None? &&
            (exists i :: 0 <= i < |moves| && IsCapture(moves[i])) ==>
      r.Some? && exists i :: IsFirstBestCapture(moves, i) && moves[i].san == r.value
  {
    if |moves| == 0 {
      return None;
    }
    var pick := RandomIndex(roll, |moves|);
    assert AnyMove(moves[pick]);
    match difficulty
    case "easy" =>
      var good := Filter(moves, IsGood);
      if |good| > 0 && coin < 0.3 {
        var g := good[RandomIndex(roll, |good|)];
        PickFromFiltered(moves, IsGood, RandomIndex(roll, |good|));
        r := Some(g.san);
        return;
      }
      r := Some(moves[pick].san);
    case "medium" =>
      var tactical := Filter(moves, IsTactical);
      if |tactical| > 0 {
        var t := tactical[RandomIndex(roll, |tactical|)];
        PickFromFiltered(moves, IsTactical, RandomIndex(roll, |tactical|));
        r := Some(t.san);
        return;
      }
      r := Some(moves[pick].san);
    case "hard" =>
      var priority := Filter(moves, IsMate);
      if |priority| > 0 {
        r := Some(priority[0].san);
        return;
      }
      var checks := Filter(moves, IsCheck);
      if |checks| > 0 {
        var c := checks[RandomIndex(roll, |checks|)];
        PickFromFiltered(moves, IsCheck, RandomIndex(roll, |checks|));
        r := Some(c.san);
        return;
      }
      var captures := Filter(moves, IsCapture);
      if |captures| > 0 {
        var a := new VerboseMove[|captures|](k requires 0 <= k < |captures| => captures[k]);
        assert a[..] == captures;
        SortByCapturedValue(a);
        FirstBestCapture(moves, captures);
        r := Some(a[0].san);
        return;
      }
      r := Some(moves[pick].san);
    case _ =>
      r := Some(moves[pick].san);
  }

  /** Position `i` holds a capture of the largest captured value, and every capture before it takes less. */
  predicate IsFirstBestCapture(moves: seq<VerboseMove>, i: int) {
    0 <= i < |moves| && IsCapture(moves[i]) &&
    (forall j :: 0 <= j < |moves| && IsCapture(moves[j]) ==> CapturedValue(moves[j]) <= CapturedValue(moves[i])) &&
    (forall j :: 0 <= j < i && IsCapture(moves[j]) ==> CapturedValue(moves[j]) < CapturedValue(moves[i]))
  }

  /** The earliest maximal element of the filtered captures is the earliest capture of the move list with the largest value. */
  lemma FirstBestCapture(moves: seq<VerboseMove>, captures: seq<VerboseMove>)
    requires captures == Filter(moves, IsCapture) && |captures| > 0
    ensures exists i :: IsFirstBestCapture(moves, i) && moves[i] == captures[FirstMaximal(captures)]
  {
    var k := FirstMaximal(captures);
    FilterKeepsOrder(moves, IsCapture, k);
    var i: nat :| KeptAt(moves, IsCapture, captures, k, i);
    forall j | 0 <= j < |moves| && IsCapture(moves[j])
      ensures CapturedValue(moves[j]) <= CapturedValue(moves[i])
    {
      assert moves[j] in captures;
    }
    forall j | 0 <= j < i && IsCapture(moves[j])
      ensures CapturedValue(moves[j]) < CapturedValue(moves[i])
    {
      assert moves[j] in captures[..k];
      var q :| 0 <= q < k && captures[..k][q] == moves[j];
      assert captures[q] == moves[j];
    }
    assert IsFirstBestCapture(moves, i);
  }

  // ------------------------------------------------------------- game phase

  /** `Math.floor(game.history().length / 2) + 1`: the full-move number. */
  function MoveCount(historyLength: nat): nat {
    historyLength / 2 + 1
  }

  /** The phase named in the prompt. */
  function GamePhase(moveCount: int): string {
    if moveCount <= 10 then "opening" else if moveCount <= 25 then "middlegame" else "endgame"
  }

  /** In half-moves: the opening is the first 20, the middlegame the next 30, the rest is the endgame. */
  lemma GamePhaseByHistory(historyLength: nat)
    ensures GamePhase(MoveCount(historyLength)) == "opening" <==> historyLength < 20
    ensures GamePhase(MoveCount(historyLength)) == "middlegame" <==> 20 <= historyLength < 50
    ensures GamePhase(MoveCount(historyLength)) == "endgame" <==> historyLength >= 50
  {
  }
}
