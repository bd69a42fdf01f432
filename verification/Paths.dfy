/** Slash-separated path text and its segments. */
module Paths {
  /** The pieces between slashes; `n` slashes always give `n + 1` pieces. */
  function Split(text: string): (pieces: seq<string>)
    ensures |pieces| >= 1
    ensures forall i :: 0 <= i < |pieces| ==> '/' !in pieces[i]
  {
    if text == "" then [""]
    else
      var rest := Split(text[1..]);
      if text[0] == '/' then [""] + rest else [[text[0]] + rest[0]] + rest[1..]
  }

  function Join(pieces: seq<string>): string {
    if |pieces| == 0 then "" else if |pieces| == 1 then pieces[0] else pieces[0] + "/" + Join(pieces[1..])
  }

  lemma {:induction false} SplitPiece(piece: string, rest: string)
    requires '/' !in piece
    ensures Split(piece + "/" + rest) == [piece] + Split(rest)
    ensures Split(piece) == [piece]
  {
    var text := piece + "/" + rest;
    if piece == "" {
      assert text == "/" + rest;
      assert text[1..] == rest;
    } else {
      assert text[1..] == piece[1..] + "/" + rest;
      assert '/' !in piece[1..];
      SplitPiece(piece[1..], rest);
      assert [piece[0]] + piece[1..] == piece;
      assert text[0] == piece[0] && text[0] in piece;
    }
  }

  /** Splitting inverts joining. */
  lemma {:induction false} SplitInvertsJoin(pieces: seq<string>)
    requires |pieces| >= 1 && forall i :: 0 <= i < |pieces| ==> '/' !in pieces[i]
    ensures Split(Join(pieces)) == pieces
  {
    if |pieces| == 1 {
      SplitPiece(pieces[0], "");
    } else {
      SplitInvertsJoin(pieces[1..]);
      SplitPiece(pieces[0], Join(pieces[1..]));
      assert [pieces[0]] + pieces[1..] == pieces;
    }
  }
}
