/** Whole lines of a file: the plain scan a tail-window reader has to agree with. */
module LineScan {
  import opened Common

  newtype byte = x: int | 0 <= x < 256

  const NEWLINE: byte := 10

  datatype Line = Line(offset: nat, text: seq<byte>)

  ghost predicate NewlineFree(file: seq<byte>, lo: nat, hi: nat)
    requires lo <= hi <= |file|
  {
    forall i :: lo <= i < hi ==> file[i] != NEWLINE
  }

  /** A position at which a line may begin. */
  predicate IsLineStart(file: seq<byte>, at: nat)
    requires at <= |file|
  {
    at == 0 || file[at - 1] == NEWLINE
  }

  function NextNewline(file: seq<byte>, at: nat, end: nat): (r: nat)
    requires at <= end <= |file|
    ensures at <= r <= end
    ensures NewlineFree(file, at, r)
    ensures r < end ==> file[r] == NEWLINE
    decreases end - at
  {
    if at == end || file[at] == NEWLINE then at else NextNewline(file, at + 1, end)
  }

  /** The non-empty lines of file[at..end], oldest first, with absolute offsets. */
  function Split(file: seq<byte>, at: nat, end: nat): seq<Line>
    requires at <= end <= |file|
    decreases end - at
  {
    var stop := NextNewline(file, at, end);
    if stop == end then LineTo(file, at, end) else LineTo(file, at, stop) + Split(file, stop + 1, end)
  }

  /** The line of file[at..stop], if it is one. */
  function LineTo(file: seq<byte>, at: nat, stop: nat): seq<Line>
    requires at <= stop <= |file|
  {
    if stop == at then [] else [Line(at, file[at..stop])]
  }

  /** The plain newest-first scan of whole lines. */
  function NewestFirst(file: seq<byte>): seq<Line> {
    Reverse(Split(file, 0, |file|))
  }

  /** Where the line that ends at `end` begins. */
  function LineStart(file: seq<byte>, end: nat): (r: nat)
    requires end <= |file|
    ensures r <= end && IsLineStart(file, r) && NewlineFree(file, r, end)
  {
    if end == 0 || file[end - 1] == NEWLINE then end else LineStart(file, end - 1)
  }

  lemma {:induction false} LineStartUnique(file: seq<byte>, start: nat, end: nat)
    requires start <= end <= |file|
    requires IsLineStart(file, start) && NewlineFree(file, start, end)
    ensures LineStart(file, end) == start
  {
    var r := LineStart(file, end);
    assert start > 0 ==> file[start - 1] == NEWLINE;
    assert r > 0 ==> file[r - 1] == NEWLINE;
  }

  /** The same lines walked from the end: what a backward reader produces. */
  function TailLines(file: seq<byte>, end: nat): seq<Line>
    requires end <= |file|
  {
    if end == 0 then []
    else if file[end - 1] == NEWLINE then TailLines(file, end - 1)
    else
      var start := LineStart(file, end);
      [Line(start, file[start..end])] + TailLines(file, start)
  }

  lemma {:induction false} NextNewlineAgree(file: seq<byte>, at: nat, near: nat, far: nat)
    requires at <= near <= far <= |file|
    ensures NextNewline(file, at, far) < near ==> NextNewline(file, at, near) == NextNewline(file, at, far)
    ensures NextNewline(file, at, far) >= near ==> NextNewline(file, at, near) == near
  {
    var f := NextNewline(file, at, far);
    var n := NextNewline(file, at, near);
    assert f < far ==> file[f] == NEWLINE;
    assert n < near ==> file[n] == NEWLINE;
  }

  lemma SplitDropLast(file: seq<byte>, at: nat, end: nat)
    requires at < end <= |file| && NextNewline(file, at, end) == end - 1
    ensures Split(file, at, end) == Split(file, at, end - 1)
  {
    NextNewlineAgree(file, at, end - 1, end);
    assert Split(file, end, end) == [];
  }

  /** Appending one newline to a range adds no line. */
  lemma {:induction false} SplitDropNewline(file: seq<byte>, at: nat, end: nat)
    requires at < end <= |file| && file[end - 1] == NEWLINE
    ensures Split(file, at, end) == Split(file, at, end - 1)
    decreases end - at
  {
    var stop := NextNewline(file, at, end);
    NextNewlineAgree(file, at, end - 1, end);
    if stop < end - 1 {
      SplitDropNewline(file, stop + 1, end);
    } else {
      SplitDropLast(file, at, end);
    }
  }

  lemma SplitOneLine(file: seq<byte>, start: nat, end: nat)
    requires start < end <= |file| && NewlineFree(file, start, end)
    ensures Split(file, start, end) == [Line(start, file[start..end])]
  {
    assert NextNewline(file, start, end) == end;
  }

  /** A range that ends inside or at the end of a line is the earlier lines and that line. */
  lemma {:induction false} SplitLastLine(file: seq<byte>, at: nat, start: nat, end: nat)
    requires at <= start < end <= |file|
    requires start == at || file[start - 1] == NEWLINE
    requires NewlineFree(file, start, end)
    ensures Split(file, at, end) == Split(file, at, start) + [Line(start, file[start..end])]
    decreases start - at
  {
    if at == start {
      SplitOneLine(file, start, end);
      assert Split(file, at, start) == [];
    } else {
      NextBeforeNewline(file, at, start, end);
      SplitLastLine(file, NextNewline(file, at, start) + 1, start, end);
      SplitLater(file, at, start, end, [Line(start, file[start..end])]);
    }
  }

  /** What is added to the lines after the first newline is added to all of them. */
  lemma SplitLater(file: seq<byte>, at: nat, start: nat, end: nat, last: seq<Line>)
    requires at <= start <= end <= |file| && NextNewline(file, at, end) == NextNewline(file, at, start) < start
    requires var later := NextNewline(file, at, start) + 1; Split(file, later, end) == Split(file, later, start) + last
    ensures Split(file, at, end) == Split(file, at, start) + last
  {
    var stop := NextNewline(file, at, start);
    Prepended(LineTo(file, at, stop), Split(file, stop + 1, start), last, Split(file, at, start),
      Split(file, stop + 1, end), Split(file, at, end));
  }

  lemma Prepended<T>(head: seq<T>, rest: seq<T>, last: seq<T>, part: seq<T>, later: seq<T>, all: seq<T>)
    requires part == head + rest && later == rest + last && all == head + later
    ensures all == part + last
  {
  }

  lemma NextBeforeNewline(file: seq<byte>, at: nat, start: nat, end: nat)
    requires at < start <= end <= |file| && file[start - 1] == NEWLINE
    ensures NextNewline(file, at, end) == NextNewline(file, at, start) < start
  {
    NextNewlineAgree(file, at, start, end);
  }

  /** Walking lines from the end is the forward split, reversed. */
  lemma {:induction false} TailLinesIsReverseSplit(file: seq<byte>, end: nat)
    requires end <= |file|
    ensures TailLines(file, end) == Reverse(Split(file, 0, end))
  {
    if end == 0 {
      assert Split(file, 0, 0) == [];
    } else if file[end - 1] == NEWLINE {
      TailLinesIsReverseSplit(file, end - 1);
      ReverseNewline(file, end);
    } else {
      LineStartBelow(file, end);
      TailLinesIsReverseSplit(file, LineStart(file, end));
      ReverseLast(file, end);
    }
  }

  lemma ReverseNewline(file: seq<byte>, end: nat)
    requires 0 < end <= |file| && file[end - 1] == NEWLINE
    requires TailLines(file, end - 1) == Reverse(Split(file, 0, end - 1))
    ensures TailLines(file, end) == Reverse(Split(file, 0, end))
  {
    SplitDropNewline(file, 0, end);
    TailLinesNewline(file, end);
  }

  lemma ReverseLast(file: seq<byte>, end: nat)
    requires 0 < end <= |file| && file[end - 1] != NEWLINE
    requires var start := LineStart(file, end); TailLines(file, start) == Reverse(Split(file, 0, start))
    ensures TailLines(file, end) == Reverse(Split(file, 0, end))
  {
    var start := LineStart(file, end);
    var line := Line(start, file[start..end]);
    LineStartBelow(file, end);
    SplitLastLine(file, 0, start, end);
    TailLinesLast(file, end);
    ReverseExtends(TailLines(file, start), Split(file, 0, start), line, TailLines(file, end), Split(file, 0, end));
  }

  lemma LineStartBelow(file: seq<byte>, end: nat)
    requires 0 < end <= |file| && file[end - 1] != NEWLINE
    ensures var start := LineStart(file, end);
      start < end && NewlineFree(file, start, end) && (start == 0 || file[start - 1] == NEWLINE)
  {
  }

  lemma TailLinesLast(file: seq<byte>, end: nat)
    requires 0 < end <= |file| && file[end - 1] != NEWLINE
    ensures var start := LineStart(file, end);
      TailLines(file, end) == [Line(start, file[start..end])] + TailLines(file, start)
  {
  }

  lemma TailLinesNewline(file: seq<byte>, end: nat)
    requires 0 < end <= |file| && file[end - 1] == NEWLINE
    ensures TailLines(file, end) == TailLines(file, end - 1)
  {
  }

  lemma ReverseExtends(older: seq<Line>, forward: seq<Line>, line: Line, all: seq<Line>, whole: seq<Line>)
    requires older == Reverse(forward) && all == [line] + older && whole == forward + [line]
    ensures all == Reverse(whole)
  {
    ReverseSnoc(forward, line);
  }

  /** The lines of a walk from `end` that begin at or after `floor`, newest first. */
  function LinesDown(file: seq<byte>, end: nat, floor: nat): seq<Line>
    requires end <= |file|
  {
    if end <= floor then []
    else if file[end - 1] == NEWLINE then LinesDown(file, end - 1, floor)
    else
      var start := LineStart(file, end);
      [Line(start, file[start..end])] + LinesDown(file, start, floor)
  }

  /** No line of a walk from `end` straddles `floor`. */
  predicate Clean(file: seq<byte>, floor: nat, end: nat) {
    floor <= end <= |file| && (floor == end || file[floor] == NEWLINE || IsLineStart(file, floor))
  }

  lemma LineStartAbove(file: seq<byte>, floor: nat, end: nat)
    requires floor < end && Clean(file, floor, end) && file[end - 1] != NEWLINE
    ensures LineStart(file, end) >= floor && Clean(file, floor, LineStart(file, end))
  {
    var start := LineStart(file, end);
    assert floor > 0 && IsLineStart(file, floor) ==> file[floor - 1] == NEWLINE;
  }

  /** A walk can be cut at any position that no line straddles. */
  lemma {:induction false} LinesDownTwo(file: seq<byte>, end: nat, mid: nat, floor: nat)
    requires floor <= mid && Clean(file, mid, end)
    ensures LinesDown(file, end, floor) == LinesDown(file, end, mid) + LinesDown(file, mid, floor)
    decreases end
  {
    if end > mid {
      if file[end - 1] == NEWLINE {
        LinesDownTwo(file, end - 1, mid, floor);
      } else {
        LineStartAbove(file, mid, end);
        var start := LineStart(file, end);
        LinesDownTwo(file, start, mid, floor);
        AppendTwice([Line(start, file[start..end])], LinesDown(file, start, mid), LinesDown(file, mid, floor));
      }
    }
  }

  lemma {:induction false} LinesDownAll(file: seq<byte>, end: nat)
    requires end <= |file|
    ensures LinesDown(file, end, 0) == TailLines(file, end)
  {
    if end > 0 {
      LinesDownAll(file, if file[end - 1] == NEWLINE then end - 1 else LineStart(file, end));
    }
  }

  lemma TailLinesCut(file: seq<byte>, end: nat, floor: nat)
    requires Clean(file, floor, end)
    ensures TailLines(file, end) == LinesDown(file, end, floor) + TailLines(file, floor)
  {
    LinesDownTwo(file, end, floor, 0);
    LinesDownAll(file, end);
    LinesDownAll(file, floor);
  }

  /** Every line of a walk lies inside the walked range, at a line start, without newlines. */
  lemma {:induction false} TailLinesLength(file: seq<byte>, end: nat)
    requires end <= |file|
    ensures forall l :: l in TailLines(file, end) ==>
      && 0 < |l.text| && l.offset + |l.text| <= end
      && l.text == file[l.offset..l.offset + |l.text|]
      && IsLineStart(file, l.offset) && NewlineFree(file, l.offset, l.offset + |l.text|)
  {
    if end == 0 {
    } else if file[end - 1] == NEWLINE {
      TailLinesLength(file, end - 1);
    } else {
      var start := LineStart(file, end);
      TailLinesLength(file, start);
    }
  }
}
