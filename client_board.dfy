/**
  The board helpers of the browser client (public/chessgame.js), without
  the DOM: the algebraic name of a square from its row and column, the
  shading of a square, the glyph of a piece, and which pieces the player
  may drag.
 */
module ClientBoard {
  import opened Wrappers
  import opened JsText
  import opened ServerClock

  // ------------------------------------------------------------ square names

  /**
    `${String.fromCharCode(97 + col)}${8 - row}`: the file letter and then
    the rank in decimal. Row 0 is the eighth rank, column 0 the a-file.
    Columns are taken where the code unit is a single character below the
    surrogate range.
   */
  function SquareName(row: int, col: int): string
    requires 0 <= 97 + col < 0xD800
  {
    [(97 + col) as char] + IntToString(8 - row)
  }

  predicate OnBoard(row: int, col: int) {
    0 <= row < 8 && 0 <= col < 8
  }

  /** The row and column of an algebraic square name, `None` when it names no square. */
  function SquareCoordinates(name: string): (r: Option<(int, int)>)
    ensures r.Some? ==> OnBoard(r.value.0, r.value.1)
  {
    if |name| == 2 && 'a' <= name[0] <= 'h' && '1' <= name[1] <= '8' then
      Some((8 - (name[1] as int - '0' as int), name[0] as int - 'a' as int))
    else None
  }

  /** On the board a name is a file `a`..`h` followed by a rank `1`..`8`, and reading it back gives the row and column. */
  lemma SquareNameOnBoard(row: int, col: int)
    requires OnBoard(row, col)
    ensures |SquareName(row, col)| == 2
    ensures 'a' <= SquareName(row, col)[0] <= 'h' && '1' <= SquareName(row, col)[1] <= '8'
    ensures SquareCoordinates(SquareName(row, col)) == Some((row, col))
  {
    NatToStringLength(8 - row);
    assert IntToString(8 - row) == [DigitChar(8 - row)];
  }

  /** Distinct squares of the board have distinct names. */
  lemma SquareNamesDistinct(r1: int, c1: int, r2: int, c2: int)
    requires OnBoard(r1, c1) && OnBoard(r2, c2) && (r1, c1) != (r2, c2)
    ensures SquareName(r1, c1) != SquareName(r2, c2)
  {
    SquareNameOnBoard(r1, c1);
    SquareNameOnBoard(r2, c2);
  }

  // ---------------------------------------------------------------- shading

  /** `(rowIndex + colIndex) % 2 === 0 ? 'light' : 'dark'`, with JavaScript's remainder. */
  function SquareShade(row: int, col: int): string {
    if JsRemainder(row + col, 2) == 0 then "light" else "dark"
  }

  /** A square is light exactly when its row and column add up to an even number; a neighbour along a rank or file has the other shade. */
  lemma SquareShadeParity(row: int, col: int)
    ensures SquareShade(row, col) == "light" <==> (row + col) % 2 == 0
    ensures SquareShade(row, col) == "dark" <==> (row + col) % 2 == 1
    ensures SquareShade(row, col) != SquareShade(row, col + 1)
    ensures SquareShade(row, col) != SquareShade(row + 1, col)
  {
  }

  // ----------------------------------------------------------------- glyphs

  function UpperAscii(c: char): char {
    if 'a' <= c <= 'z' then (c as int - 32) as char else c
  }

  function LowerAscii(c: char): char {
    if 'A' <= c <= 'Z' then (c as int + 32) as char else c
  }

  /** `toUpperCase()` on ASCII: each small letter becomes the capital at the same place in the alphabet, and every other character stays. */
  function ToUpper(s: string): (r: string)
    ensures |r| == |s|
    ensures forall i :: 0 <= i < |s| && 'a' <= s[i] <= 'z' ==>
      'A' <= r[i] <= 'Z' && r[i] as int - 'A' as int == s[i] as int - 'a' as int
    ensures forall i :: 0 <= i < |s| && !('a' <= s[i] <= 'z') ==> r[i] == s[i]
  {
    seq(|s|, i requires 0 <= i < |s| => UpperAscii(s[i]))
  }

  /** `toLowerCase()` on ASCII: each capital becomes the small letter at the same place in the alphabet, and every other character stays. */
  function ToLower(s: string): (r: string)
    ensures |r| == |s|
    ensures forall i :: 0 <= i < |s| && 'A' <= s[i] <= 'Z' ==>
      'a' <= r[i] <= 'z' && r[i] as int - 'a' as int == s[i] as int - 'A' as int
    ensures forall i :: 0 <= i < |s| && !('A' <= s[i] <= 'Z') ==> r[i] == s[i]
  {
    seq(|s|, i requires 0 <= i < |s| => LowerAscii(s[i]))
  }

  /** Case conversion forgets the case it replaces: lowering after raising is lowering, and raising after lowering is raising. */
  lemma CaseRoundTrips(s: string)
    ensures ToLower(ToUpper(s)) == ToLower(s)
    ensures ToUpper(ToLower(s)) == ToUpper(s)
  {
    var u, l := ToUpper(s), ToLower(s);
    forall i | 0 <= i < |s|
      ensures ToLower(u)[i] == l[i] && ToUpper(l)[i] == u[i]
    {
      if 'a' <= s[i] <= 'z' {
        assert 'A' <= u[i] <= 'Z' && l[i] == s[i];
      } else if 'A' <= s[i] <= 'Z' {
        assert u[i] == s[i] && 'a' <= l[i] <= 'z';
      }
    }
  }

  /** The glyph table of `getPieceUnicode`: upper case for white pieces, lower case for black. */
  const Glyphs: map<string, string> := map[
    "K" := "♔", "Q" := "♕", "R" := "♖", "B" := "♗", "N" := "♘", "P" := "♙",
    "k" := "♚", "q" := "♛", "r" := "♜", "b" := "♝", "n" := "♞", "p" := "♟"]

  /** `getPieceUnicode(piece)`: the type in upper case for white (`'w'`), lower case otherwise, looked up with `|| ''`. */
  function PieceUnicode(color: string, pieceType: string): string {
    var key := if color == "w" then ToUpper(pieceType) else ToLower(pieceType);
    if key in Glyphs then Glyphs[key] else ""
  }

  /** The table read backwards: the key whose glyph is `g`. */
  function GlyphKey(g: string): string {
    match g
    case "♔" => "K" case "♕" => "Q" case "♖" => "R" case "♗" => "B" case "♘" => "N" case "♙" => "P"
    case "♚" => "k" case "♛" => "q" case "♜" => "r" case "♝" => "b" case "♞" => "n" case "♟" => "p"
    case _ => ""
  }

  /** The twelve glyphs are pairwise different, so the glyph tells colour and type apart. */
  lemma GlyphsDistinct(k1: string, k2: string)
    requires k1 in Glyphs && k2 in Glyphs && k1 != k2
    ensures Glyphs[k1] != Glyphs[k2]
  {
    GlyphKeyInverts(k1);
    GlyphKeyInverts(k2);
  }

  lemma GlyphKeyInverts(k: string)
    requires k in Glyphs
    ensures GlyphKey(Glyphs[k]) == k
  {
  }

  /** For the six chess.js piece types, white looks up the upper-case key and black the lower-case one, both mapped. */
  lemma PieceUnicodeKeys(color: string, c: char)
    requires c in "kqrbnp"
    ensures PieceUnicode(color, [c]) != ""
    ensures color == "w" ==> PieceUnicode(color, [c]) == Glyphs[[UpperAscii(c)]]
    ensures color != "w" ==> PieceUnicode(color, [c]) == Glyphs[[c]]
    ensures PieceUnicode("w", [c]) != PieceUnicode("b", [c])
  {
    assert ToUpper([c]) == [UpperAscii(c)];
    assert ToLower([c]) == [c];
  }

  /** A type that is not one of the twelve piece letters, in either case, gives the empty string. */
  lemma PieceUnicodeUnmapped(color: string, pieceType: string)
    requires |pieceType| == 1 ==> pieceType[0] !in "kqrbnpKQRBNP"
    ensures PieceUnicode(color, pieceType) == ""
  {
    if |pieceType| == 1 {
      var key := if color == "w" then ToUpper(pieceType) else ToLower(pieceType);
      assert key == [key[0]];
      assert key[0] !in "KQRBNPkqrbnp";
    }
  }

  // --------------------------------------------------------------- dragging

  /**
    `piece.draggable = playerRole === square.color[0]`; the role `null` is
    written `""` and an empty colour has no first character (`undefined`).
   */
  predicate IsDraggable(playerRole: string, color: string) {
    |color| > 0 && playerRole == [color[0]]
  }

  /** For chess.js's colours `'w'` and `'b'`, a piece can be dragged exactly by the player of its colour; spectators and players without a role drag nothing. */
  lemma DraggableByOwnColour(playerRole: string, color: string)
    requires color == "w" || color == "b"
    ensures IsDraggable(playerRole, color) <==> playerRole == color
    ensures IsDraggable("w", color) != IsDraggable("b", color)
    ensures !IsDraggable("spectator", color) && !IsDraggable("", color)
  {
  }
}
