/** Splitting and joining on a separator, as JavaScript's split and join do. */
module Strings {
  /** The pieces between separators; the empty string has one empty piece. */
  function Split(s: string, sep: char): (pieces: seq<string>)
    ensures pieces != []
    ensures forall i :: 0 <= i < |pieces| ==> sep !in pieces[i]
  {
    if s == [] then [""]
    else
      var rest := Split(s[1..], sep);
      if s[0] == sep then [""] + rest else [[s[0]] + rest[0]] + rest[1..]
  }

  function Join(pieces: seq<string>, sep: char): string {
    if pieces == [] then ""
    else if |pieces| == 1 then pieces[0]
    else pieces[0] + [sep] + Join(pieces[1..], sep)
  }

  ghost predicate FreeOf(pieces: seq<string>, sep: char) {
    forall i :: 0 <= i < |pieces| ==> sep !in pieces[i]
  }

  lemma {:induction false} SplitPiece(piece: string, sep: char)
    requires sep !in piece
    ensures Split(piece, sep) == [piece]
    decreases |piece|
  {
    if piece != [] {
      SplitPiece(piece[1..], sep);
      assert [piece[0]] + piece[1..] == piece;
    }
  }

  lemma {:induction false} SplitAfterPiece(piece: string, sep: char, rest: string)
    requires sep !in piece
    ensures Split(piece + [sep] + rest, sep) == [piece] + Split(rest, sep)
    decreases |piece|
  {
    var s := piece + [sep] + rest;
    if piece == [] {
      assert s[1..] == rest;
    } else {
      SplitAfterPiece(piece[1..], sep, rest);
      assert s[1..] == piece[1..] + [sep] + rest;
      assert [piece[0]] + piece[1..] == piece;
    }
  }

  /** Splitting undoes joining. */
  lemma {:induction false} SplitJoin(pieces: seq<string>, sep: char)
    requires pieces != [] && FreeOf(pieces, sep)
    ensures Split(Join(pieces, sep), sep) == pieces
    decreases |pieces|
  {
    if |pieces| == 1 {
      SplitPiece(pieces[0], sep);
    } else {
      SplitJoin(pieces[1..], sep);
      SplitAfterPiece(pieces[0], sep, Join(pieces[1..], sep));
    }
  }

  /** Joining undoes splitting. */
  lemma {:induction false} JoinSplit(s: string, sep: char)
    ensures Join(Split(s, sep), sep) == s
    decreases |s|
  {
    if s != [] {
      JoinSplit(s[1..], sep);
      var rest := Split(s[1..], sep);
      if s[0] == sep {
        assert ([""] + rest)[1..] == rest;
      } else if |rest| > 1 {
        assert ([[s[0]] + rest[0]] + rest[1..])[1..] == rest[1..];
      }
    }
  }

  lemma {:induction false} JoinAppend(xs: seq<string>, ys: seq<string>, sep: char)
    requires xs != [] && ys != []
    ensures Join(xs + ys, sep) == Join(xs, sep) + [sep] + Join(ys, sep)
    decreases |xs|
  {
    if |xs| == 1 {
      assert (xs + ys)[1..] == ys;
    } else {
      JoinAppend(xs[1..], ys, sep);
      assert (xs + ys)[1..] == xs[1..] + ys;
    }
  }

  /** Cutting a joined text leaves some whole pieces and the beginning of the next. */
  lemma {:induction false} CutJoin(pieces: seq<string>, sep: char, n: nat) returns (k: nat, m: nat)
    requires pieces != [] && FreeOf(pieces, sep) && n <= |Join(pieces, sep)|
    ensures k < |pieces| && m <= |pieces[k]|
    ensures Split(Join(pieces, sep)[..n], sep) == pieces[..k] + [pieces[k][..m]]
    ensures n == |Join(pieces, sep)| ==> k == |pieces| - 1 && m == |pieces[k]|
    decreases |pieces|
  {
    var text, first := Join(pieces, sep), pieces[0];
    if n <= |first| {
      k, m := 0, n;
      assert text[..n] == first[..n];
      SplitPiece(first[..n], sep);
      if n == |text| {
        assert |pieces| == 1;
      }
    } else {
      var rest := Join(pieces[1..], sep);
      var k', m' := CutJoin(pieces[1..], sep, n - |first| - 1);
      k, m := k' + 1, m';
      assert text[..n] == first + [sep] + rest[..n - |first| - 1];
      SplitAfterPiece(first, sep, rest[..n - |first| - 1]);
      assert pieces[..k] == [first] + pieces[1..][..k'];
    }
  }
}
