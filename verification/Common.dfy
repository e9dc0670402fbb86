/** Small types and sequence facts shared by the components. */
module Common {
  datatype Option<+T> = None | Some(value: T)

  function Reverse<T>(s: seq<T>): (r: seq<T>)
    ensures |r| == |s|
    ensures forall i :: 0 <= i < |s| ==> r[i] == s[|s| - 1 - i]
  {
    if s == [] then [] else Reverse(s[1..]) + [s[0]]
  }

  lemma {:induction false} ReverseAppend<T>(s: seq<T>, t: seq<T>)
    ensures Reverse(s + t) == Reverse(t) + Reverse(s)
  {
    assert forall i :: 0 <= i < |s + t| ==> Reverse(s + t)[i] == (Reverse(t) + Reverse(s))[i];
  }

  lemma ReverseSnoc<T>(s: seq<T>, x: T)
    ensures Reverse(s + [x]) == [x] + Reverse(s)
  {
    ReverseAppend(s, [x]);
    assert Reverse([x]) == [x];
  }

  lemma AppendTwice<T>(a: seq<T>, b: seq<T>, c: seq<T>)
    ensures a + (b + c) == (a + b) + c
  {
  }

  lemma DropAppend<T>(a: seq<T>, b: seq<T>, n: nat)
    requires n <= |a| + |b|
    ensures (a + b)[n..] == if n <= |a| then a[n..] + b else b[n - |a|..]
  {
  }

  /** The pieces between separators; an empty text has one empty piece. */
  function SplitOn<T(==)>(text: seq<T>, mark: T): (r: seq<seq<T>>)
    ensures r != []
  {
    if text == [] then [[]]
    else
      var rest := SplitOn(text[1..], mark);
      if text[0] == mark then [[]] + rest else [[text[0]] + rest[0]] + rest[1..]
  }

  function JoinWith<T>(pieces: seq<seq<T>>, mark: T): seq<T> {
    if pieces == [] then []
    else if |pieces| == 1 then pieces[0]
    else pieces[0] + [mark] + JoinWith(pieces[1..], mark)
  }

  ghost predicate Whole<T>(pieces: seq<seq<T>>, mark: T) { forall l :: l in pieces ==> mark !in l }

  lemma {:induction false} SplitAppend<T>(a: seq<T>, mark: T, b: seq<T>)
    ensures SplitOn(a + [mark] + b, mark) == SplitOn(a, mark) + SplitOn(b, mark)
  {
    var s := a + [mark] + b;
    if a == [] {
      assert s[1..] == b;
    } else {
      assert s[1..] == a[1..] + [mark] + b;
      SplitAppend(a[1..], mark, b);
    }
  }

  lemma {:induction false} JoinSplit<T>(text: seq<T>, mark: T)
    ensures JoinWith(SplitOn(text, mark), mark) == text
  {
    if text != [] {
      var rest := SplitOn(text[1..], mark);
      JoinSplit(text[1..], mark);
      if text[0] == mark {
        assert ([[]] + rest)[1..] == rest;
      } else {
        assert ([[text[0]] + rest[0]] + rest[1..])[1..] == rest[1..];
      }
    }
  }

  lemma {:induction false} SplitWhole<T>(text: seq<T>, mark: T)
    ensures Whole(SplitOn(text, mark), mark)
  {
    if text != [] { SplitWhole(text[1..], mark); }
  }

  lemma {:induction false} SplitPiece<T>(piece: seq<T>, mark: T)
    requires mark !in piece
    ensures SplitOn(piece, mark) == [piece]
  {
    if piece != [] {
      SplitPiece(piece[1..], mark);
      assert [piece[0]] + piece[1..] == piece;
    }
  }

  lemma {:induction false} SplitJoin<T>(pieces: seq<seq<T>>, mark: T)
    requires pieces != [] && Whole(pieces, mark)
    ensures SplitOn(JoinWith(pieces, mark), mark) == pieces
  {
    SplitPiece(pieces[0], mark);
    if |pieces| > 1 {
      SplitJoin(pieces[1..], mark);
      SplitAppend(pieces[0], mark, JoinWith(pieces[1..], mark));
    }
  }
}
