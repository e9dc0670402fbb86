/** What the page reader does outside its promise: a file that opens with a newline, and a line over the limit. */
module PagerFaults {
  import opened Common
  import opened Iteration
  import opened LineScan
  import opened PageScan
  import opened ReversePager

  /** The line that one turn of the loop over a file's first window takes, if any. */
  function TurnLines(window: seq<byte>, at: nat): seq<Line>
    requires 0 < at <= |window|
  {
    var first, last := NextLineEnd(window, 0, at), LineStop(window, at);
    if first < last then [Line(first, window[first..last])] else []
  }

  /** One turn of the loop, from any place of the window; at its start the loop is over. */
  function Turn(window: seq<byte>): nat -> nat {
    (at: nat) => if 0 < at <= |window| then NextLineEnd(window, 0, at) else at
  }

  function Takes(window: seq<byte>): nat -> seq<Line> {
    (at: nat) => if 0 < at <= |window| then TurnLines(window, at) else []
  }

  /** Where the loop stands n turns after it stood at `at`. */
  function TurnsTo(window: seq<byte>, at: nat, n: nat): nat { Iterate(Turn(window), at, n) }

  /** The lines those turns take. */
  function Turns(window: seq<byte>, at: nat, n: nat): seq<Line> { Gather(Turn(window), Takes(window), at, n) }

  /** So many turns lead from one place to another and take these lines. */
  ghost predicate Goes(window: seq<byte>, at: nat, n: nat, until: nat, lines: seq<Line>) {
    TurnsTo(window, at, n) == until && Turns(window, at, n) == lines
  }

  lemma GoesOn(window: seq<byte>, at: nat, m: nat, mid: nat, first: seq<Line>, n: nat, until: nat, second: seq<Line>)
    requires Goes(window, at, m, mid, first) && Goes(window, mid, n, until, second)
    ensures Goes(window, at, m + n, until, first + second)
  {
    IterateSum(Turn(window), at, m, n);
    GatherSum(Turn(window), Takes(window), at, m, n);
  }

  /** One turn takes the line that a walk from there takes next. */
  lemma TurnTakes(window: seq<byte>, at: nat)
    requires 1 < at <= |window| && window[0] == NEWLINE
    ensures var next := NextLineEnd(window, 0, at);
      0 < next < at && TailLines(window, at) == TurnLines(window, at) + TailLines(window, next)
  {
    var next, stop := NextLineEnd(window, 0, at), LineStop(window, at);
    assert stop == at - 1 ==> TailLines(window, at) == TailLines(window, stop);
    assert window[next - 1] == NEWLINE && NewlineFree(window, next, stop);
    if next < stop {
      LineStartUnique(window, next, stop);
      assert window[stop - 1] != NEWLINE;
      TailLinesLast(window, stop);
    }
  }

  /** The loop comes down to just behind the opening newline, and has taken the lines of the walk from there. */
  lemma {:induction false} PassDown(window: seq<byte>, at: nat) returns (n: nat)
    requires 1 <= at <= |window| && window[0] == NEWLINE
    ensures Goes(window, at, n, 1, TailLines(window, at))
  {
    if at == 1 {
      n := 0;
      TailLinesNewline(window, 1);
    } else {
      var next := NextLineEnd(window, 0, at);
      TurnTakes(window, at);
      var more := PassDown(window, next);
      n := more + 1;
    }
  }

  /** Behind the last newline: where the loop jumps from just behind the opening one. */
  function Top(window: seq<byte>): (r: nat)
    requires window != []
    ensures r <= |window|
  {
    LastNewline(window, |window| - 1) + 1
  }

  lemma Jumps(window: seq<byte>)
    requires window != [] && window[0] == NEWLINE
    ensures Top(window) >= 1 && Goes(window, 1, 1, Top(window), [])
  {
    assert TurnLines(window, 1) == [];
  }

  function Copies(lines: seq<Line>, k: nat): seq<Line> { if k == 0 then [] else Copies(lines, k - 1) + lines }

  /** All lines of the window, and then those up to its last newline so many times over. */
  function Repeated(window: seq<byte>, k: nat): seq<Line>
    requires window != []
  {
    TailLines(window, |window|) + Copies(TailLines(window, Top(window)), k)
  }

  lemma {:induction false} Passes(window: seq<byte>, k: nat) returns (n: nat)
    requires window != [] && window[0] == NEWLINE
    ensures n >= k && Goes(window, |window|, n, 1, Repeated(window, k))
  {
    if k == 0 {
      n := PassDown(window, |window|);
      assert Repeated(window, 0) == TailLines(window, |window|);
    } else {
      var m := Passes(window, k - 1);
      n := OncePast(window, m, Repeated(window, k - 1));
      AppendTwice(TailLines(window, |window|), Copies(TailLines(window, Top(window)), k - 1),
        TailLines(window, Top(window)));
    }
  }

  /** One pass more: the jump, and the lines up to the last newline. */
  lemma OncePast(window: seq<byte>, m: nat, lines: seq<Line>) returns (n: nat)
    requires window != [] && window[0] == NEWLINE
    requires Goes(window, |window|, m, 1, lines)
    ensures n > m && Goes(window, |window|, n, 1, lines + TailLines(window, Top(window)))
  {
    JumpOn(window, m, lines);
    var p := PassDown(window, Top(window));
    GoesOn(window, |window|, m + 1, Top(window), lines, p, 1, TailLines(window, Top(window)));
    n := m + 1 + p;
  }

  lemma JumpOn(window: seq<byte>, m: nat, lines: seq<Line>)
    requires window != [] && window[0] == NEWLINE && Goes(window, |window|, m, 1, lines)
    ensures Top(window) >= 1 && Goes(window, |window|, m + 1, Top(window), lines)
  {
    Jumps(window);
    GoesOn(window, |window|, m, 1, lines, 1, Top(window), []);
    assert lines + [] == lines;
  }

  /** From state `s`, the loop over the first window of a file ever stops the page. */
  ghost predicate Stops(query: Query, parse: Normalizer, s: Scan, window: seq<byte>) {
    exists n :: Run(query, true, s, Items(Turns(window, |window|, n), parse)).status != Open
  }

  /** Over a file that opens with a newline the page never ends by itself: it goes on as a scan of its lines followed by
      endless copies of those up to the last newline, and stops exactly if that scan does. */
  lemma RepeatsUntilStopped(query: Query, parse: Normalizer, s: Scan, window: seq<byte>)
    requires window != [] && window[0] == NEWLINE
    ensures Stops(query, parse, s, window)
      <==> exists k :: Run(query, true, s, Items(Repeated(window, k), parse)).status != Open
    ensures forall n :: TurnsTo(window, |window|, n) > 0
  {
    forall k | Run(query, true, s, Items(Repeated(window, k), parse)).status != Open
      ensures Stops(query, parse, s, window)
    {
      var n := Passes(window, k);
    }
    forall n: nat
      ensures Run(query, true, s, Items(Turns(window, |window|, n), parse)).status != Open
        ==> Run(query, true, s, Items(Repeated(window, n), parse)).status != Open
      ensures TurnsTo(window, |window|, n) > 0
    {
      WithinPasses(query, parse, s, window, n);
    }
  }

  /** So many turns are no more than so many passes. */
  lemma WithinPasses(query: Query, parse: Normalizer, s: Scan, window: seq<byte>, n: nat)
    requires window != [] && window[0] == NEWLINE
    ensures Run(query, true, s, Items(Turns(window, |window|, n), parse)).status != Open
      ==> Run(query, true, s, Items(Repeated(window, n), parse)).status != Open
    ensures TurnsTo(window, |window|, n) > 0
  {
    var m := Passes(window, n);
    var early, late := TurnsApart(window, |window|, n, m, Repeated(window, n));
    ItemsAppend(early, late, parse);
    StaysClosed(query, s, Items(early, parse), Items(late, parse));
  }

  /** Fewer turns take the first of the lines, and have not come to an end when more have not. */
  lemma TurnsApart(window: seq<byte>, at: nat, n: nat, m: nat, lines: seq<Line>)
    returns (early: seq<Line>, late: seq<Line>)
    requires n <= m && Goes(window, at, m, 1, lines)
    ensures lines == early + late && early == Turns(window, at, n) && TurnsTo(window, at, n) > 0
  {
    var mid := TurnsTo(window, at, n);
    early, late := Turns(window, at, n), Turns(window, mid, m - n);
    Apart(Turn(window), Takes(window), at, n, m, mid);
    NotOver(window, mid, m - n);
  }

  lemma Apart<T, O>(f: T -> T, take: T -> seq<O>, x: T, n: nat, m: nat, mid: T)
    requires n <= m && mid == Iterate(f, x, n)
    ensures Iterate(f, x, m) == Iterate(f, mid, m - n)
    ensures Gather(f, take, x, m) == Gather(f, take, x, n) + Gather(f, take, mid, m - n)
  {
    IterateSum(f, x, n, m - n);
    GatherSum(f, take, x, n, m - n);
  }

  lemma NotOver(window: seq<byte>, at: nat, n: nat)
    requires TurnsTo(window, at, n) > 0
    ensures at > 0
  {
    if at == 0 { OverStays(window, n); }
  }

  lemma {:induction false} OverStays(window: seq<byte>, n: nat)
    ensures TurnsTo(window, 0, n) == 0
  {
    if n > 0 { OverStays(window, n - 1); }
  }

  lemma StaysClosed(query: Query, s: Scan, a: seq<Item>, b: seq<Item>)
    ensures Run(query, true, s, a).status != Open ==> Run(query, true, s, a + b).status != Open
  {
    RunAppend(query, true, s, a, b);
    if Run(query, true, s, a).status != Open { RunClosed(query, true, Run(query, true, s, a), b); }
  }

  /** A file that is one newline: nothing ever stops the page. */
  lemma NewlineNeverEnds(query: Query, parse: Normalizer)
    ensures !Stops(query, parse, Fresh([]), [NEWLINE])
  {
    var window := [NEWLINE];
    RepeatsUntilStopped(query, parse, Fresh([]), window);
    TailLinesNewline(window, 1);
    assert Top(window) == 1 && TailLines(window, 1) == [];
    forall k ensures Run(query, true, Fresh([]), Items(Repeated(window, k), parse)).status == Open {
      NoCopies(k);
      assert Repeated(window, k) == [];
    }
  }

  lemma {:induction false} NoCopies(k: nat)
    ensures Copies([], k) == []
  {
    if k > 0 { NoCopies(k - 1); }
  }

  const LINE: Line := Line(1, [98])

  /** A file of one line between two newlines, and a page of two: it reports the line's record twice and stops. */
  lemma LineReportedTwice()
    ensures var window, parse := [NEWLINE, 98, NEWLINE], (t: seq<byte>) => if t == [98] then [ANY] else [];
      && Repeated(window, 2) == [LINE, LINE, LINE]
      && var s := Run(Wide(2), true, Fresh([]), Items(Repeated(window, 2), parse));
         s.status.Full? && s.out == [Record(1, None, ANY), Record(1, None, ANY)]
  {
    var window: seq<byte> := [NEWLINE, 98, NEWLINE];
    var parse: Normalizer := (t: seq<byte>) => if t == [98] then [ANY] else [];
    OneLine(window);
    ThreeTimes(parse);
  }

  lemma OneLine(window: seq<byte>)
    requires window == [NEWLINE, 98, NEWLINE]
    ensures Repeated(window, 2) == [LINE, LINE, LINE]
  {
    assert Top(window) == 3;
    TailLinesNewline(window, 3);
    LineStartUnique(window, 1, 2);
    TailLinesLast(window, 2);
    TailLinesNewline(window, 1);
    assert window[1..2] == [98];
    assert TailLines(window, 3) == [LINE];
    assert Copies([LINE], 0) == [] && Copies([LINE], 1) == Copies([LINE], 0) + [LINE] == [LINE];
    assert Copies([LINE], 2) == Copies([LINE], 1) + [LINE];
  }

  lemma ThreeTimes(parse: Normalizer)
    requires Only(parse, [98])
    ensures var s := Run(Wide(2), true, Fresh([]), Items([LINE, LINE, LINE], parse));
      s.status.Full? && s.out == [Record(1, None, ANY), Record(1, None, ANY)]
  {
    var i := Item(1, 0, 1, ANY);
    assert LineItems(LINE, [ANY], 1) == [i];
    assert [LINE, LINE, LINE] == [LINE, LINE] + [LINE] && [LINE, LINE][1..] == [LINE];
    ItemsAppend([LINE, LINE], [LINE], parse);
    assert Items([LINE], parse) == [i] + Items([], parse);
    OnlyScan(2, true, Fresh([]), [LINE, LINE], parse, [98]);
    var two := Run(Wide(2), true, Fresh([]), Items([LINE, LINE], parse));
    assert two.out == [] + Found([LINE, LINE], [98]) && Found([LINE], [98]) == [Record(1, None, ANY)];
    RunAppend(Wide(2), true, Fresh([]), Items([LINE, LINE], parse), [i]);
    assert Run(Wide(2), true, two, [i]) == Run(Wide(2), true, Step(Wide(2), true, two, i), []);
  }

  /** A window without a newline that is longer than the limit is dropped: the line it ends is not among those below,
      though it is among those of a walk from the window's end. */
  lemma LongLineLost(file: seq<byte>, start: nat, end: nat)
    requires start < end <= |file| && NewlineFree(file, start, end)
    ensures var long := Line(LineStart(file, end), file[LineStart(file, end)..end]);
      long in TailLines(file, end) && long !in TailLines(file, start)
  {
    TornLineMissing(file, end, start, end);
  }
}
