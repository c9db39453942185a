/**
  `extractMoveFromResponse` of claude-chess-ai.js: the suggestion text is
  stripped of the punctuation `. , ! ?` and trimmed, then searched for the
  legal moves in list order; a word-by-word pass follows.
 */
module MoveExtraction {
  import opened Wrappers
  import opened JsText
  import opened JsArrays

  predicate IsPunct(c: char) {
    c == '.' || c == ',' || c == '!' || c == '?'
  }

  /** `replace(/[.,!?]/g, '')`. */
  function RemovePunct(s: string): (r: string)
    ensures |r| <= |s|
    ensures forall i :: 0 <= i < |r| ==> !IsPunct(r[i])
  {
    if s == [] then []
    else (if IsPunct(s[0]) then [] else [s[0]]) + RemovePunct(s[1..])
  }

  /** Removal works character by character, so it keeps the order of what stays. */
  lemma {:induction false} RemovePunctAppend(a: string, b: string)
    ensures RemovePunct(a + b) == RemovePunct(a) + RemovePunct(b)
  {
    if a == [] {
      assert a + b == b;
    } else {
      assert (a + b)[0] == a[0];
      assert (a + b)[1..] == a[1..] + b;
      RemovePunctAppend(a[1..], b);
    }
  }

  /** Every other character survives as often as it occurred, and no punctuation does. */
  lemma {:induction false} RemovePunctCounts(s: string)
    ensures forall c :: !IsPunct(c) ==> multiset(RemovePunct(s))[c] == multiset(s)[c]
    ensures forall c :: IsPunct(c) ==> multiset(RemovePunct(s))[c] == 0
  {
    if s != [] {
      RemovePunctCounts(s[1..]);
      assert s == [s[0]] + s[1..];
      assert multiset(s) == multiset([s[0]]) + multiset(s[1..]);
    }
  }

  /** A string without punctuation is left as it is. */
  lemma {:induction false} RemovePunctIdentity(s: string)
    requires forall i :: 0 <= i < |s| ==> !IsPunct(s[i])
    ensures RemovePunct(s) == s
  {
    if s != [] {
      RemovePunctIdentity(s[1..]);
      assert [s[0]] + s[1..] == s;
    }
  }

  /** Removing twice is removing once. */
  lemma RemovePunctIdempotent(s: string)
    ensures RemovePunct(RemovePunct(s)) == RemovePunct(s)
  {
    RemovePunctIdentity(RemovePunct(s));
  }

  /** `response.replace(/[.,!?]/g, '').trim()`. */
  function Clean(response: string): (r: string)
    ensures exists a :: TrimmedAt(RemovePunct(response), r, a)
    ensures IsSubstring(r, RemovePunct(response))
    ensures forall i :: 0 <= i < |r| ==> !IsPunct(r[i])
    ensures |r| > 0 ==> !IsJsSpace(r[0]) && !IsJsSpace(r[|r| - 1])
  {
    var t := RemovePunct(response);
    var r := Trim(t);
    var k: nat :| OccursAt(r, t, k);
    assert forall i :: 0 <= i < |r| ==> r[i] == t[k + i];
    r
  }

  /** The position of the first move, in list order, that occurs in `text`. */
  function FirstOccurring(moves: seq<string>, text: string): (r: Option<nat>)
    ensures r.Some? ==> r.value < |moves| && IsSubstring(moves[r.value], text)
    ensures r.Some? ==> forall j :: 0 <= j < r.value ==> !IsSubstring(moves[j], text)
    ensures r.None? <==> forall j :: 0 <= j < |moves| ==> !IsSubstring(moves[j], text)
  {
    FindFirst(moves, (m: string) => Contains(text, m))
  }

  /**
    What the extraction promises: nothing, exactly when no move occurs in
    the cleaned response; otherwise a move of the list that occurs in it,
    and every move listed before it does not.
   */
  function SuggestedMove(response: string, moves: seq<string>): (r: Option<string>)
    ensures r.Some? ==> r.value in moves && IsSubstring(r.value, Clean(response))
    ensures r.None? <==> forall j :: 0 <= j < |moves| ==> !IsSubstring(moves[j], Clean(response))
    ensures r.Some? ==> exists i :: (0 <= i < |moves| && moves[i] == r.value &&
      forall j :: 0 <= j < i ==> !IsSubstring(moves[j], Clean(response)))
  {
    match FirstOccurring(moves, Clean(response))
    case None => None
    case Some(i) => Some(moves[i])
  }

  /** The word pass finds nothing the substring pass missed: a word equal to a move makes the move occur. */
  lemma WordPassAddsNothing(response: string, moves: seq<string>)
    ensures SuggestedMove(response, moves).None? ==>
      forall w :: w in SplitWs(Clean(response)) ==> w !in moves
  {
    WordsAreSubstrings(Clean(response));
  }

  /** `extractMoveFromResponse(response, possibleMoves)`: the substring pass, then the word pass. */
  method ExtractMoveFromResponse(response: string, moves: seq<string>) returns (r: Option<string>)
    ensures r == SuggestedMove(response, moves)
  {
    var clean := Clean(response);
    r := SubstringPass(clean, moves);
    if r.Some? {
      return;
    }
    var words := SplitWs(clean);
    WordsAreSubstrings(clean);
    r := WordPass(words, moves);
    if r.Some? {
      assert false;
    }
  }

  /** The first loop: the first move equal to, or contained in, the cleaned text. */
  method SubstringPass(clean: string, moves: seq<string>) returns (r: Option<string>)
    ensures r == match FirstOccurring(moves, clean) case None => None case Some(i) => Some(moves[i])
  {
    var i := 0;
    while i < |moves|
      invariant i <= |moves|
      invariant forall j :: 0 <= j < i ==> !IsSubstring(moves[j], clean)
    {
      var move := moves[i];
      if clean == move || Contains(clean, move) {
        if clean == move {
          assert OccursAt(move, clean, 0);
        }
        assert FirstOccurring(moves, clean) == Some(i);
        return Some(move);
      }
      i := i + 1;
    }
    assert FirstOccurring(moves, clean) == None;
    return None;
  }

  /** The second loop: the first word, in order, that equals a move. */
  method WordPass(words: seq<string>, moves: seq<string>) returns (r: Option<string>)
    ensures r.Some? ==> r.value in words && r.value in moves
    ensures r.Some? ==> exists k :: (0 <= k < |words| && words[k] == r.value &&
      forall k' :: 0 <= k' < k ==> words[k'] !in moves)
    ensures r.None? <==> forall w :: w in words ==> w !in moves
  {
    var w := 0;
    while w < |words|
      invariant w <= |words|
      invariant forall k :: 0 <= k < w ==> words[k] !in moves
    {
      var word := words[w];
      var j := 0;
      while j < |moves|
        invariant j <= |moves|
        invariant forall k :: 0 <= k < j ==> moves[k] != word
      {
        var move := moves[j];
        if word == move {
          assert words[w] == move;
          return Some(move);
        }
        j := j + 1;
      }
      w := w + 1;
    }
    return None;
  }
}
