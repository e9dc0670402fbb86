/** The reverse tail-window reader and the cursor walk over its pages. */
module ReversePager {
  import opened Common
  import opened LineScan
  import opened PageReports
  import opened PageScan

  datatype Page = Page(records: seq<Record>, cursor: Option<Cursor>, hasMore: bool, bytesRead: nat, scanCapped: bool)
  /** The reader's constants: chunk size, scan ceiling of one page, longest line kept. */
  datatype Limits = Limits(chunk: nat, scan: nat, line: nat)

  /** A page that reports exactly what a scan found and where it stopped. */
  predicate Reports(records: seq<Record>, cursor: Option<Cursor>, hasMore: bool, s: Scan) {
    && records == s.out
    && match s.status
       case Full(c) => hasMore && cursor == Some(c)
       case _ => !hasMore && cursor == None
  }

  ghost predicate LinesWithin(file: seq<byte>, limit: nat) {
    forall lo, hi :: 0 <= lo <= hi <= |file| && NewlineFree(file, lo, hi) ==> hi - lo <= limit
  }

  /** Last index <= `from` that holds a newline, or -1. */
  function LastNewline(window: seq<byte>, from: nat): (r: int)
    requires from < |window|
    ensures -1 <= r <= from
    ensures r >= 0 ==> window[r] == NEWLINE
    ensures NewlineFree(window, (r + 1) as nat, from + 1)
  {
    if window[from] == NEWLINE then from else if from == 0 then -1 else LastNewline(window, from - 1)
  }

  function FirstNewline(window: seq<byte>): (r: int)
    ensures -1 <= r < |window|
    ensures r >= 0 ==> window[r] == NEWLINE && NewlineFree(window, 0, r as nat)
    ensures r < 0 ==> NewlineFree(window, 0, |window|)
  {
    var n := NextNewline(window, 0, |window|);
    if n == |window| then -1 else n
  }

  class PageReader {
    const query: Query
    const parse: Normalizer
    var out: seq<Record>
    var recentMessages: seq<Recent>
    var next: Option<Cursor>
    var hasMore: bool

    constructor (query: Query, parse: Normalizer, recent: seq<Recent>)
      ensures this.query == query && this.parse == parse
      ensures out == [] && recentMessages == recent && next == None && !hasMore
    {
      this.query, this.parse := query, parse;
      out, recentMessages, next, hasMore := [], recent, None, false;
    }

    ghost function State(): Scan reads this { Scan(out, recentMessages, Open) }

    /** Whether a candidate's twin is in the window; the candidate enters it either way. */
    method Seen(candidate: Candidate) returns (twin: bool)
      modifies this`recentMessages
      ensures twin == (Windowed(candidate) && Twinned(old(recentMessages), candidate))
      ensures recentMessages ==
        if Windowed(candidate) then Remember(old(recentMessages), candidate) else old(recentMessages)
    {
      if candidate.kind != Message || candidate.representation.None? { return false; }
      twin := false;
      var i := 0;
      while i < |recentMessages| && !twin
        invariant 0 <= i <= |recentMessages|
        invariant twin ==> Twinned(recentMessages, candidate)
        invariant !twin ==> forall k :: 0 <= k < i ==>
          !(recentMessages[k].key == candidate.key && recentMessages[k].representation != candidate.representation.value
            && NearStamps(recentMessages[k].stamp, candidate.stamp))
        decreases |recentMessages| - i, !twin
      {
        var m := recentMessages[i];
        if m.key == candidate.key && m.representation != candidate.representation.value
          && NearStamps(m.stamp, candidate.stamp) {
          twin := true;
        }
        i := i + 1;
      }
      recentMessages := [Recent(candidate.key, candidate.stamp, candidate.representation.value)] + recentMessages;
      if |recentMessages| > WINDOW {
        recentMessages := recentMessages[..|recentMessages| - 1];
      }
    }

    /** Emits one line's records newest part first; false when the page stopped. */
    method ConsumeLine(line: seq<byte>, offset: nat, partLimit: Option<nat>) returns (more: bool)
      requires next == None && !hasMore
      modifies this
      ensures var records := parse(line);
        var count := if partLimit.Some? then Min(partLimit.value, |records|) else |records|;
        var s := Run(query, true, old(State()), LineItems(Line(offset, line), records, count));
        && recentMessages == s.recent && (more <==> s.status == Open) && Reports(out, next, hasMore, s)
    {
      var records := parse(line);
      var count := if partLimit.Some? then Min(partLimit.value, |records|) else |records|;
      var part := count;
      ghost var l := Line(offset, line);
      ghost var goal := Run(query, true, State(), LineItems(l, records, count));
      while part > 0
        invariant 0 <= part <= count && next == None && !hasMore
        invariant Run(query, true, State(), LineItems(l, records, part)) == goal
      {
        part := part - 1;
        var candidate := records[part];
        var item := Item(offset, part, |records|, candidate);
        ghost var rest := LineItems(l, records, part);
        assert LineItems(l, records, part + 1) == [item] + rest;
        ghost var stepped := Step(query, true, State(), item);
        assert goal == Run(query, true, stepped, rest);
        if TooOld(query, candidate) {
          RunClosed(query, true, stepped, rest);
          return false;
        }
        if |out| >= query.limit {
          hasMore, next := true, Some(Cursor(offset, part + 1, recentMessages));
          RunClosed(query, true, stepped, rest);
          return false;
        }
        var twin := Seen(candidate);
        if !twin && candidate.kind in query.kinds && candidate.role in query.roles {
          out := out + [RecordOf(item)];
        }
      }
      more := true;
    }
  }

  /** The cursor a page starts from: the caller's, or the end of the file. */
  function StartOf(file: seq<byte>, cursor: Option<Cursor>): Cursor {
    if cursor.Some? then cursor.value else Cursor(|file|, 0, [])
  }

  /** How many bytes the forward probe has read when it stops: chunks up to a newline, the file's end or the line
      limit. */
  function Probed(file: seq<byte>, offset: nat, read: nat, limits: Limits): (n: nat)
    requires offset + read <= |file| && limits.chunk > 0
    ensures offset + n <= |file|
    decreases |file| - read
  {
    var stop := NextNewline(file, offset, offset + read);
    if stop == offset + read && offset + read < |file| && read < limits.line then
      Probed(file, offset, read + Min(limits.chunk, |file| - offset - read), limits)
    else read
  }

  /** Reads forward from `offset` until the line ends: the line a cursor stopped inside. */
  method ProbeLine(file: seq<byte>, offset: nat, limits: Limits) returns (line: seq<byte>, bytesRead: nat)
    requires limits.chunk > 0 && LinesWithin(file, limits.line)
    requires offset < |file|
    ensures line == LineAt(file, offset).text
    ensures bytesRead == Probed(file, offset, 0, limits)
  {
    var probe: seq<byte> := [];
    while FirstNewline(probe) == -1 && offset + |probe| < |file| && |probe| < limits.line
      invariant offset + |probe| <= |file| && probe == file[offset..offset + |probe|]
      invariant Probed(file, offset, |probe|, limits) == Probed(file, offset, 0, limits)
      decreases |file| - |probe|
    {
      ProbeGoesOn(file, offset, probe);
      var length := Min(limits.chunk, |file| - offset - |probe|);
      ghost var longer := offset + |probe| + length;
      assert file[offset..longer] == file[offset..offset + |probe|] + file[offset + |probe|..longer];
      probe := probe + file[offset + |probe|..offset + |probe| + length];
    }
    bytesRead := |probe|;
    ProbeGoesOn(file, offset, probe);
    var nl := FirstNewline(probe);
    line := if nl == -1 then probe else probe[..nl];
    ProbeEnds(file, offset, probe, limits.line);
  }

  /** Where the probe has stopped, it holds the whole line. */
  lemma ProbeEnds(file: seq<byte>, offset: nat, probe: seq<byte>, limit: nat)
    requires offset + |probe| <= |file| && probe == file[offset..offset + |probe|] && offset < |file|
    requires FirstNewline(probe) >= 0 || offset + |probe| == |file| || |probe| >= limit
    requires LinesWithin(file, limit)
    ensures var nl := FirstNewline(probe);
      LineAt(file, offset).text == if nl == -1 then probe else probe[..nl]
  {
    var nl := FirstNewline(probe);
    var line := if nl == -1 then probe else probe[..nl];
    var stop := NextNewline(file, offset, |file|);
    assert forall k :: 0 <= k < |probe| ==> file[offset + k] == probe[k];
    assert stop < |file| ==> file[stop] == NEWLINE;
    assert NewlineFree(file, offset, offset + |line|);
    assert NewlineFree(file, offset, stop);
  }

  lemma ProbeGoesOn(file: seq<byte>, offset: nat, probe: seq<byte>)
    requires offset + |probe| <= |file| && probe == file[offset..offset + |probe|]
    ensures FirstNewline(probe) == -1 <==> NextNewline(file, offset, offset + |probe|) == offset + |probe|
  {
    var stop := NextNewline(file, offset, offset + |probe|);
    var nl := FirstNewline(probe);
    assert forall k :: 0 <= k < |probe| ==> probe[k] == file[offset + k];
    assert stop < offset + |probe| ==> probe[stop - offset] == NEWLINE;
    assert nl >= 0 ==> file[offset + nl] == NEWLINE;
  }

  /** From state `s`, the page takes the whole lines from `end` down to `floor` and is then in state `after`. */
  ghost predicate Eats(query: Query, parse: Normalizer, s: Scan, file: seq<byte>, end: nat, floor: nat, after: Scan) {
    end <= |file| && Run(query, true, s, Items(LinesDown(file, end, floor), parse)) == after
  }

  lemma EatsOn(query: Query, parse: Normalizer, s: Scan, file: seq<byte>, end: nat, mid: nat, floor: nat, m: Scan,
               after: Scan)
    requires floor <= mid && Clean(file, mid, end)
    requires Eats(query, parse, s, file, end, mid, m) && Eats(query, parse, m, file, mid, floor, after)
    ensures Eats(query, parse, s, file, end, floor, after)
  {
    LinesDownTwo(file, end, mid, floor);
    ItemsAppend(LinesDown(file, end, mid), LinesDown(file, mid, floor), parse);
    RunAppend(query, true, s, Items(LinesDown(file, end, mid), parse), Items(LinesDown(file, mid, floor), parse));
  }

  /** A page that stopped takes nothing more. */
  lemma EatsClosed(query: Query, parse: Normalizer, s: Scan, file: seq<byte>, end: nat, mid: nat, floor: nat,
                   after: Scan)
    requires floor <= mid && Clean(file, mid, end) && after.status != Open
    requires Eats(query, parse, s, file, end, mid, after)
    ensures Eats(query, parse, s, file, end, floor, after)
  {
    RunClosed(query, true, after, Items(LinesDown(file, mid, floor), parse));
    EatsOn(query, parse, s, file, end, mid, floor, after, after);
  }

  lemma EatsLast(query: Query, parse: Normalizer, s: Scan, file: seq<byte>, end: nat, mid: nat, low: nat, base: nat,
                 m: Scan, after: Scan)
    requires base <= low <= mid && Clean(file, mid, end) && Clean(file, low, end)
    requires Eats(query, parse, s, file, end, mid, m) && Eats(query, parse, m, file, mid, low, after)
    ensures Eats(query, parse, s, file, end, low, after)
    ensures after.status != Open ==> Eats(query, parse, s, file, end, base, after)
  {
    EatsOn(query, parse, s, file, end, mid, low, m, after);
    if after.status != Open { EatsClosed(query, parse, s, file, end, low, base, after); }
  }

  /** A newline just below `end` ends a line and is none itself. */
  lemma EatsNewline(query: Query, parse: Normalizer, s: Scan, file: seq<byte>, end: nat, floor: nat, after: Scan)
    requires floor <= end < |file| && file[end] == NEWLINE && Eats(query, parse, s, file, end, floor, after)
    ensures Eats(query, parse, s, file, end + 1, floor, after)
  {
  }

  /** `window` is the stretch of the file that begins at `start`. */
  ghost predicate Mapped(file: seq<byte>, start: nat, window: seq<byte>) {
    start + |window| <= |file| && forall k :: 0 <= k < |window| ==> window[k] == file[start + k]
  }

  lemma MappedSlice(file: seq<byte>, start: nat, window: seq<byte>, lo: nat, hi: nat)
    requires Mapped(file, start, window) && lo <= hi <= |window|
    ensures window[lo..hi] == file[start + lo..start + hi]
  {
    forall k | 0 <= k < hi - lo ensures window[lo..hi][k] == file[start + lo..start + hi][k] {
      assert window[lo + k] == file[start + (lo + k)];
    }
  }

  lemma LineInWindow(file: seq<byte>, start: nat, window: seq<byte>, lineBase: nat, lineStart: nat, lineEnd: nat)
    requires Mapped(file, start, window) && lineBase <= lineStart < lineEnd <= |window|
    requires lineStart == lineBase || window[lineStart - 1] == NEWLINE
    requires IsLineStart(file, start + lineBase) && NewlineFree(window, lineStart, lineEnd)
    ensures LineStart(file, start + lineEnd) == start + lineStart && file[start + lineEnd - 1] != NEWLINE
  {
    assert NewlineFree(file, start + lineStart, start + lineEnd) by {
      forall i | start + lineStart <= i < start + lineEnd ensures file[i] != NEWLINE {
        assert file[i] == window[i - start];
      }
    }
    LineStartUnique(file, start + lineStart, start + lineEnd);
    assert window[lineEnd - 1] != NEWLINE;
  }

  /** The last line of window[..lineEnd]: one trailing newline is dropped first. */
  method LastLine(window: seq<byte>, lineBase: nat, lineEnd: nat) returns (first: nat, last: nat)
    requires lineBase < lineEnd <= |window|
    requires lineBase == 0 ==> window[0] != NEWLINE
    ensures lineBase <= first <= last <= lineEnd && first < lineEnd
    ensures last == lineEnd || (last == lineEnd - 1 && window[last] == NEWLINE)
    ensures first == lineBase || window[first - 1] == NEWLINE
    ensures NewlineFree(window, first, last) && first == NextLineEnd(window, lineBase, lineEnd)
  {
    LineStepAdvancesIff(window, lineBase, lineEnd);
    last := LineStop(window, lineEnd);
    var prev := LastIndexOf(window, last - 1);
    first := if prev + 1 > lineBase then prev + 1 else lineBase;
  }

  /** `Buffer.lastIndexOf(newline, from)`: a negative `from` counts back from the end of the buffer. */
  function LastIndexOf(window: seq<byte>, from: int): int
    requires -|window| <= from < |window|
  {
    LastNewline(window, if from < 0 then from + |window| else from)
  }

  function LineStop(window: seq<byte>, lineEnd: nat): nat
    requires 0 < lineEnd <= |window|
  {
    if window[lineEnd - 1] == NEWLINE then lineEnd - 1 else lineEnd
  }

  /** Where one turn of the line loop goes on. */
  function NextLineEnd(window: seq<byte>, lineBase: nat, lineEnd: nat): int
    requires lineBase < lineEnd <= |window|
  {
    var prev := LastIndexOf(window, LineStop(window, lineEnd) - 1);
    if prev + 1 > lineBase then prev + 1 else lineBase
  }

  /** The line loop moves on at every position except one: just after a newline that opens the
      window, where it jumps forward again. Only a file that starts with a newline has one. */
  lemma LineStepAdvancesIff(window: seq<byte>, lineBase: nat, lineEnd: nat)
    requires lineBase < lineEnd <= |window|
    ensures NextLineEnd(window, lineBase, lineEnd) < lineEnd <==> !(lineEnd == 1 && window[0] == NEWLINE)
  {
  }

  /** Where the line loop of the first window of a file stands after n turns. */
  function LoopAt(window: seq<byte>, n: nat): (r: nat)
    ensures r <= |window|
  {
    if n == 0 then |window|
    else
      var at := LoopAt(window, n - 1);
      if at == 0 then 0 else NextLineEnd(window, 0, at)
  }

  ghost predicate LoopEnds(window: seq<byte>) { exists n :: LoopAt(window, n) == 0 }

  /** The loop over the first lines of a file comes to an end by itself exactly when the file does not open with a
      newline; otherwise only a full page or an old record leaves it. */
  lemma LineLoopEndsIff(window: seq<byte>)
    requires window != []
    ensures LoopEnds(window) <==> window[0] != NEWLINE
  {
    if window[0] == NEWLINE {
      forall n ensures LoopAt(window, n) > 0 { LoopStays(window, n); }
    } else {
      LoopSinks(window, |window|);
      assert LoopAt(window, |window|) == 0;
    }
  }

  lemma {:induction false} LoopStays(window: seq<byte>, n: nat)
    requires window != [] && window[0] == NEWLINE
    ensures LoopAt(window, n) > 0
  {
    if n > 0 {
      LoopStays(window, n - 1);
      assert LastIndexOf(window, LineStop(window, LoopAt(window, n - 1)) - 1) >= 0;
    }
  }

  lemma {:induction false} LoopSinks(window: seq<byte>, n: nat)
    requires window != [] && window[0] != NEWLINE
    ensures LoopAt(window, n) <= if n < |window| then |window| - n else 0
  {
    if n > 0 {
      LoopSinks(window, n - 1);
      var at := LoopAt(window, n - 1);
      if at > 0 { LineStepAdvancesIff(window, 0, at); }
    }
  }

  /** The reader after a stretch of lines that left the page in state `after`. */
  ghost predicate Stands(reader: PageReader, done: bool, after: Scan)
    reads reader
  {
    if done then after.status != Open && Reports(reader.out, reader.next, reader.hasMore, after)
    else after == reader.State() && reader.next == None && !reader.hasMore
  }

  /** Walks the complete lines of a window from the last to the first. */
  method ConsumeWindow(reader: PageReader, ghost file: seq<byte>, start: nat, window: seq<byte>, lineBase: nat)
    returns (done: bool, ghost after: Scan)
    requires reader.next == None && !reader.hasMore
    requires Mapped(file, start, window) && lineBase <= |window| && IsLineStart(file, start + lineBase)
    requires lineBase == 0 ==> window == [] || window[0] != NEWLINE
    modifies reader
    ensures Stands(reader, done, after)
    ensures Eats(reader.query, reader.parse, old(reader.State()), file, start + |window|, start + lineBase, after)
  {
    var lineEnd := |window|;
    done, after := false, reader.State();
    ghost var s, end := after, start + |window|;
    while lineEnd > lineBase
      invariant lineBase <= lineEnd <= |window| && !done && Stands(reader, false, after)
      invariant lineEnd == |window| || IsLineStart(file, start + lineEnd)
      invariant Eats(reader.query, reader.parse, s, file, end, start + lineEnd, after)
    {
      ghost var mid, m := lineEnd, after;
      done, lineEnd, after := ConsumeLast(reader, file, start, window, lineBase, lineEnd);
      EatsLast(reader.query, reader.parse, s, file, end, start + mid, start + lineEnd, start + lineBase, m, after);
      if done { return; }
    }
  }

  /** Takes the last line of window[..lineEnd], if it has one, and moves to where that line starts. */
  method ConsumeLast(reader: PageReader, ghost file: seq<byte>, start: nat, window: seq<byte>, lineBase: nat,
                     lineEnd: nat)
    returns (done: bool, lineStart: nat, ghost after: Scan)
    requires reader.next == None && !reader.hasMore && lineBase < lineEnd <= |window|
    requires Mapped(file, start, window) && IsLineStart(file, start + lineBase)
    requires lineBase == 0 ==> window[0] != NEWLINE
    modifies reader
    ensures lineBase <= lineStart < lineEnd && IsLineStart(file, start + lineStart)
    ensures Stands(reader, done, after)
    ensures Eats(reader.query, reader.parse, old(reader.State()), file, start + lineEnd, start + lineStart, after)
  {
    done, after := false, reader.State();
    ghost var s := after;
    var last;
    lineStart, last := LastLine(window, lineBase, lineEnd);
    assert lineStart > lineBase ==> file[start + lineStart - 1] == window[lineStart - 1];
    if lineStart < last {
      done, after := ConsumeNext(reader, file, start, window, lineBase, lineStart, last);
    }
    if last < lineEnd {
      assert file[start + last] == window[last];
      EatsNewline(reader.query, reader.parse, s, file, start + last, start + lineStart, after);
    }
  }

  /** Consumes the line window[lineStart..lineEnd] and says whether the page stopped in it. */
  method ConsumeNext(reader: PageReader, ghost file: seq<byte>, start: nat, window: seq<byte>, ghost lineBase: nat,
                     lineStart: nat, lineEnd: nat) returns (done: bool, ghost after: Scan)
    requires reader.next == None && !reader.hasMore
    requires Mapped(file, start, window) && lineBase <= lineStart < lineEnd <= |window|
    requires lineStart == lineBase || window[lineStart - 1] == NEWLINE
    requires IsLineStart(file, start + lineBase) && NewlineFree(window, lineStart, lineEnd)
    modifies reader
    ensures Stands(reader, done, after)
    ensures Eats(reader.query, reader.parse, old(reader.State()), file, start + lineEnd, start + lineStart, after)
  {
    var line := window[lineStart..lineEnd];
    ghost var l := Line(start + lineStart, line);
    after := Run(reader.query, true, reader.State(), LineItems(l, reader.parse(line), |reader.parse(line)|));
    OneLineDown(file, start, window, lineBase, lineStart, lineEnd, reader.parse);
    var more := reader.ConsumeLine(line, start + lineStart, None);
    done := !more;
  }

  lemma OneLineDown(file: seq<byte>, start: nat, window: seq<byte>, lineBase: nat, lineStart: nat, lineEnd: nat,
                    parse: Normalizer)
    requires Mapped(file, start, window) && lineBase <= lineStart < lineEnd <= |window|
    requires lineStart == lineBase || window[lineStart - 1] == NEWLINE
    requires IsLineStart(file, start + lineBase) && NewlineFree(window, lineStart, lineEnd)
    ensures var line := window[lineStart..lineEnd];
      Items(LinesDown(file, start + lineEnd, start + lineStart), parse)
        == LineItems(Line(start + lineStart, line), parse(line), |parse(line)|)
  {
    MappedSlice(file, start, window, lineStart, lineEnd);
    LineInWindow(file, start, window, lineBase, lineStart, lineEnd);
    var l := Line(start + lineStart, window[lineStart..lineEnd]);
    assert LinesDown(file, start + lineEnd, start + lineStart) == [l];
    assert Items([l], parse) == LineItems(l, parse(l.text), |parse(l.text)|) + Items([], parse);
  }

  /** The tail window of one round: the chunk before `end` and the carried line tail after it. */
  lemma WindowMapped(file: seq<byte>, start: nat, end: nat, carry: seq<byte>)
    requires start <= end && Mapped(file, end, carry)
    ensures Mapped(file, start, file[start..end] + carry)
  {
  }

  /** The items of the line a cursor stopped inside that are still due: its earlier parts. */
  ghost function Replayed(file: seq<byte>, parse: Normalizer, at: Cursor): seq<Item>
    requires CursorIn(file, at)
  {
    if at.part == 0 then []
    else
      var l := LineAt(file, at.offset);
      LineItems(l, parse(l.text), Min(at.part, |parse(l.text)|))
  }

  /** A cursor mid-line: replays that one line's earlier parts first. */
  method ReplayLine(reader: PageReader, file: seq<byte>, at: Cursor, limits: Limits)
    returns (done: bool, bytesRead: nat, ghost after: Scan)
    requires limits.chunk > 0 && LinesWithin(file, limits.line)
    requires CursorIn(file, at) && at.part > 0
    requires reader.next == None && !reader.hasMore
    modifies reader
    ensures Stands(reader, done, after) && bytesRead == Probed(file, at.offset, 0, limits)
    ensures after == Run(reader.query, true, old(reader.State()), Replayed(file, reader.parse, at))
  {
    var line, n := ProbeLine(file, at.offset, limits);
    bytesRead := n;
    after := Run(reader.query, true, reader.State(), Replayed(file, reader.parse, at));
    var more := reader.ConsumeLine(line, at.offset, Some(at.part));
    done := !more;
  }

  /** Reads the chunk before `end` and consumes its complete lines; the head of the
      window, which may be the tail of a line, is carried to the next round. */
  method ReadChunk(reader: PageReader, file: seq<byte>, end: nat, carry: seq<byte>, limits: Limits, ghost limit: nat)
    returns (done: bool, start: nat, carried: seq<byte>, ghost after: Scan)
    requires limits.chunk > 0 && LinesWithin(file, limits.line)
    requires file != [] ==> file[0] != NEWLINE
    requires reader.next == None && !reader.hasMore
    requires 0 < end && Carried(file, end, carry, limit)
    modifies reader
    ensures start == ChunkStart(end, limits)
    ensures Stands(reader, done, after) && Carried(file, start, carried, limit)
    ensures start + |carried| <= end + |carry| && Clean(file, start + |carried|, limit)
    ensures Eats(reader.query, reader.parse, old(reader.State()), file, end + |carry|, start + |carried|, after)
  {
    var window, lineBase;
    start, window, lineBase, carried := NextWindow(file, end, carry, limits, limit);
    done, after := false, reader.State();
    if lineBase.None? { return; }
    ghost var s := after;
    done, after := ConsumeWindow(reader, file, start, window, lineBase.value);
    if lineBase.value > 0 {
      ghost var cut := start + lineBase.value - 1;
      EatsDownTo(reader.query, reader.parse, s, file, end + |carry|, cut, after);
    }
  }

  /** The floor may be moved below the newline it lies behind. */
  lemma EatsDownTo(query: Query, parse: Normalizer, s: Scan, file: seq<byte>, end: nat, cut: nat, after: Scan)
    requires cut < end <= |file| && file[cut] == NEWLINE && Eats(query, parse, s, file, end, cut + 1, after)
    ensures Eats(query, parse, s, file, end, cut, after)
  {
    LinesDownTwo(file, end, cut + 1, cut);
    assert LinesDown(file, cut + 1, cut) == [];
    assert LinesDown(file, end, cut + 1) + [] == LinesDown(file, end, cut + 1);
  }

  /** Where the chunk before `end` begins. */
  function ChunkStart(end: nat, limits: Limits): (start: nat)
    ensures start <= end && (end > 0 && limits.chunk > 0 ==> start < end)
  {
    if end > limits.chunk then end - limits.chunk else 0
  }

  /** The window of one round and where its complete lines begin (none when it holds no newline). */
  method NextWindow(file: seq<byte>, end: nat, carry: seq<byte>, limits: Limits, ghost limit: nat)
    returns (start: nat, window: seq<byte>, lineBase: Option<nat>, carried: seq<byte>)
    requires limits.chunk > 0 && LinesWithin(file, limits.line)
    requires file != [] ==> file[0] != NEWLINE
    requires 0 < end && Carried(file, end, carry, limit)
    ensures start == ChunkStart(end, limits)
    ensures Mapped(file, start, window) && start + |window| == end + |carry| && window != []
    ensures Carried(file, start, carried, limit) && Clean(file, start + |carried|, limit)
    ensures lineBase.None? ==> carried == window
    ensures lineBase.Some? ==> CutAt(file, start, window, lineBase.value, carried)
  {
    start := ChunkStart(end, limits);
    window := file[start..end] + carry;
    WindowMapped(file, start, end, carry);
    lineBase, carried := CutWindow(file, start, window, limits, limit);
  }

  /** A window's complete lines begin at its start, or just behind the newline that ends what is carried. */
  ghost predicate CutAt(file: seq<byte>, start: nat, window: seq<byte>, lineBase: nat, carried: seq<byte>)
    requires Mapped(file, start, window)
  {
    && lineBase <= |window| && IsLineStart(file, start + lineBase)
    && if lineBase == 0 then start == 0 && carried == [] && window != [] && window[0] != NEWLINE
       else lineBase == |carried| + 1 && file[start + |carried|] == NEWLINE
  }

  /** A window with no line's end in it, and longer than any line may be. */
  predicate TooLong(start: nat, window: seq<byte>, limits: Limits) {
    start > 0 && FirstNewline(window) == -1 && |window| > limits.line
  }

  /** Cuts a window at its first newline. What would be carried is dropped exactly when it is too long. */
  method CutWindow(file: seq<byte>, start: nat, window: seq<byte>, limits: Limits, ghost limit: nat)
    returns (lineBase: Option<nat>, carried: seq<byte>)
    requires Mapped(file, start, window) && window != [] && file[0] != NEWLINE
    requires start + |window| <= limit <= |file| && Clean(file, start + |window|, limit)
    requires start + |window| == limit || file[start + |window|] == NEWLINE
    ensures TooLong(start, window, limits) ==> lineBase == None && carried == []
    ensures !TooLong(start, window, limits) ==>
      Carried(file, start, carried, limit) && Clean(file, start + |carried|, limit)
    ensures !TooLong(start, window, limits) && lineBase.None? ==> carried == window
    ensures !TooLong(start, window, limits) && lineBase.Some? ==> CutAt(file, start, window, lineBase.value, carried)
    ensures TooLong(start, window, limits) ==> !LinesWithin(file, limits.line)
  {
    var firstNewline := if start == 0 then -1 else FirstNewline(window);
    if start > 0 && firstNewline == -1 {
      NewlineFreeWindow(file, start, window, |window|);
      lineBase, carried := None, if |window| > limits.line then [] else window;
    } else {
      lineBase := Some(firstNewline + 1);
      carried := if firstNewline == -1 then [] else window[..firstNewline];
      if firstNewline >= 0 {
        assert window[firstNewline] == file[start + firstNewline];
        NewlineFreeWindow(file, start, window, firstNewline);
      }
    }
  }

  /** What a round carries over: the stretch from `start` to the next newline, or to where the page began. */
  ghost predicate Carried(file: seq<byte>, start: nat, carry: seq<byte>, limit: nat) {
    && Mapped(file, start, carry) && NewlineFree(file, start, start + |carry|)
    && start + |carry| <= limit <= |file|
    && (start == 0 ==> carry == [])
    && (start > 0 ==> start + |carry| == limit || file[start + |carry|] == NEWLINE)
  }

  lemma NewlineFreeWindow(file: seq<byte>, start: nat, window: seq<byte>, n: nat)
    requires Mapped(file, start, window) && n <= |window| && NewlineFree(window, 0, n)
    ensures NewlineFree(file, start, start + n)
  {
    forall i | start <= i < start + n ensures file[i] != NEWLINE {
      assert file[i] == window[i - start];
    }
  }

  /** How much of a line lies between `end` and the lines a page that began at `limit` has taken. */
  function Torn(file: seq<byte>, end: nat, limit: nat): nat
    requires end <= limit <= |file|
  {
    NextNewline(file, end, limit) - end
  }

  lemma CarriedIsTorn(file: seq<byte>, start: nat, carry: seq<byte>, limit: nat)
    requires 0 < start && Carried(file, start, carry, limit)
    ensures |carry| == Torn(file, start, limit)
  {
    var stop := NextNewline(file, start, limit);
    assert stop < limit ==> file[stop] == NEWLINE;
  }

  lemma TornCutsBelow(file: seq<byte>, low: nat, high: nat, limit: nat)
    requires low <= high <= limit <= |file|
    ensures low + Torn(file, low, limit) <= high + Torn(file, high, limit)
    ensures Clean(file, low + Torn(file, low, limit), limit)
  {
    var stop := NextNewline(file, high, limit);
    assert stop < limit ==> file[stop] == NEWLINE;
  }

  /** Where the ceiling stops the chunk loop, or 0 when it never does. Only sizes decide. */
  function CapEnd(end: nat, read: nat, limits: Limits): (e: nat)
    requires limits.chunk > 0
    ensures e <= end && (e > 0 ==> limits.scan <= read + (end - e)) && (read < limits.scan ==> e < end || e == 0)
    decreases end
  {
    if end == 0 || read >= limits.scan then end
    else CapEnd(ChunkStart(end, limits), read + (end - ChunkStart(end, limits)), limits)
  }

  /** From state `s`, a page that has read `scanned` bytes is still open when the ceiling stops it. */
  ghost predicate TailCaps(file: seq<byte>, query: Query, parse: Normalizer, s: Scan, offset: nat, scanned: nat,
                           limits: Limits)
    requires offset <= |file| && limits.chunk > 0
  {
    var e := CapEnd(offset, scanned, limits);
    e > 0 && AtCeiling(file, query, parse, s, offset, e).status == Open
  }

  /** What the page has found above a ceiling at `e`: the whole lines from the page's start down to there. */
  ghost function AtCeiling(file: seq<byte>, query: Query, parse: Normalizer, s: Scan, offset: nat, e: nat): Scan
    requires e <= offset <= |file|
  {
    Run(query, true, s, Items(LinesDown(file, offset, e + Torn(file, e, offset)), parse))
  }

  /** A page between two rounds: what it has taken, and what it carries. */
  ghost predicate Midway(query: Query, parse: Normalizer, s: Scan, file: seq<byte>, offset: nat, end: nat,
                         carry: seq<byte>, after: Scan) {
    && Carried(file, end, carry, offset) && Clean(file, end + |carry|, offset)
    && Eats(query, parse, s, file, offset, end + |carry|, after)
  }

  /** One round of the main loop. */
  method ReadRound(reader: PageReader, file: seq<byte>, end: nat, carry: seq<byte>, limits: Limits,
                   ghost offset: nat, ghost s: Scan, ghost before: Scan)
    returns (done: bool, start: nat, carried: seq<byte>, ghost after: Scan)
    requires limits.chunk > 0 && LinesWithin(file, limits.line) && 0 < end
    requires file != [] ==> file[0] != NEWLINE
    requires Stands(reader, false, before) && Midway(reader.query, reader.parse, s, file, offset, end, carry, before)
    modifies reader
    ensures start == ChunkStart(end, limits) && Stands(reader, done, after)
    ensures Midway(reader.query, reader.parse, s, file, offset, start, carried, after)
  {
    done, start, carried, after := ReadChunk(reader, file, end, carry, limits, offset);
    EatsOn(reader.query, reader.parse, s, file, offset, end + |carry|, start + |carried|, before, after);
  }

  /** What a page that starts from state `s` at `offset` tells: capped, it has what lies above the ceiling and goes on
      there; otherwise it is the plain scan of the lines below `offset`. */
  ghost predicate TailTold(page: Page, query: Query, parse: Normalizer, s: Scan, file: seq<byte>, offset: nat,
                           scanned: nat, limits: Limits)
    requires offset <= |file| && limits.chunk > 0
  {
    && (page.scanCapped <==> TailCaps(file, query, parse, s, offset, scanned, limits))
    && (page.scanCapped ==>
          var e := CapEnd(offset, scanned, limits);
          var t := AtCeiling(file, query, parse, s, offset, e);
          page == Page(t.out, Some(Cursor(e, 0, t.recent)), true, scanned + (offset - e), true))
    && (!page.scanCapped ==> Reports(page.records, page.cursor, page.hasMore,
          Run(query, true, s, Items(TailLines(file, offset), parse))))
  }

  /** The reader's main loop: chunk by chunk to the start of the file, a full page or the ceiling. */
  method ReadTail(reader: PageReader, file: seq<byte>, from: Cursor, scanned: nat, limits: Limits) returns (page: Page)
    requires limits.chunk > 0 && LinesWithin(file, limits.line) && from.offset <= |file|
    requires file != [] ==> file[0] != NEWLINE
    requires reader.next == None && !reader.hasMore
    modifies reader
    ensures TailTold(page, reader.query, reader.parse, old(reader.State()), file, from.offset, scanned, limits)
  {
    ghost var s, offset := reader.State(), from.offset;
    ghost var after := s;
    var bytesRead: nat, end: nat := scanned, from.offset;
    var carry: seq<byte> := [];
    while end > 0
      invariant Stands(reader, false, after) && end <= offset && bytesRead == scanned + (offset - end)
      invariant Midway(reader.query, reader.parse, s, file, offset, end, carry, after)
      invariant CapEnd(end, bytesRead, limits) == CapEnd(offset, scanned, limits)
    {
      if bytesRead >= limits.scan {
        page := Page(reader.out, Some(Cursor(end, 0, reader.recentMessages)), true, bytesRead, true);
        StoppedAt(page, reader.query, reader.parse, s, file, offset, end, carry, after, scanned, limits);
        return;
      }
      var done, start, carried;
      done, start, carried, after := ReadRound(reader, file, end, carry, limits, offset, s, after);
      bytesRead := bytesRead + (end - start);
      if done {
        page := Page(reader.out, reader.next, reader.hasMore, bytesRead, false);
        StoppedTells(page, reader.query, reader.parse, s, file, offset, start, carried, after, scanned, limits);
        return;
      }
      end, carry := start, carried;
    }
    page := Page(reader.out, None, false, bytesRead, false);
    EndTells(page, reader.query, reader.parse, s, file, offset, carry, after, scanned, limits);
  }

  lemma StoppedAt(page: Page, query: Query, parse: Normalizer, s: Scan, file: seq<byte>, offset: nat, e: nat,
                  carry: seq<byte>, after: Scan, scanned: nat, limits: Limits)
    requires 0 < e && Midway(query, parse, s, file, offset, e, carry, after) && after.status == Open
    requires limits.chunk > 0 && e == CapEnd(offset, scanned, limits)
    requires page == Page(after.out, Some(Cursor(e, 0, after.recent)), true, scanned + (offset - e), true)
    ensures TailTold(page, query, parse, s, file, offset, scanned, limits)
  {
    CarriedIsTorn(file, e, carry, offset);
  }

  lemma StoppedTells(page: Page, query: Query, parse: Normalizer, s: Scan, file: seq<byte>, offset: nat, start: nat,
                     carried: seq<byte>, after: Scan, scanned: nat, limits: Limits)
    requires Midway(query, parse, s, file, offset, start, carried, after) && after.status != Open
    requires limits.chunk > 0 && CapEnd(offset, scanned, limits) <= start
    requires !page.scanCapped && Reports(page.records, page.cursor, page.hasMore, after)
    ensures TailTold(page, query, parse, s, file, offset, scanned, limits)
  {
    StoppedAbove(query, parse, s, file, offset, start, carried, CapEnd(offset, scanned, limits), after);
  }

  lemma EndTells(page: Page, query: Query, parse: Normalizer, s: Scan, file: seq<byte>, offset: nat, carry: seq<byte>,
                 after: Scan, scanned: nat, limits: Limits)
    requires Midway(query, parse, s, file, offset, 0, carry, after) && after.status == Open
    requires limits.chunk > 0 && CapEnd(offset, scanned, limits) == 0
    requires !page.scanCapped && Reports(page.records, page.cursor, page.hasMore, after)
    ensures TailTold(page, query, parse, s, file, offset, scanned, limits)
  {
    LinesDownAll(file, offset);
  }

  /** A page that stopped above the ceiling is not capped there, and has seen all it reports. */
  lemma StoppedAbove(query: Query, parse: Normalizer, s: Scan, file: seq<byte>, offset: nat, start: nat,
                     carried: seq<byte>,
                     e: nat, after: Scan)
    requires Midway(query, parse, s, file, offset, start, carried, after) && after.status != Open && e <= start
    ensures e > 0 ==> AtCeiling(file, query, parse, s, offset, e) == after
    ensures Run(query, true, s, Items(TailLines(file, offset), parse)) == after
  {
    EatsClosed(query, parse, s, file, offset, start + |carried|, 0, after);
    LinesDownAll(file, offset);
    if e > 0 {
      CarriedIsTorn(file, start, carried, offset);
      TornCutsBelow(file, e, start, offset);
      EatsClosed(query, parse, s, file, offset, start + |carried|, e + Torn(file, e, offset), after);
    }
  }

  /** A page as a function of the file: its records, its cursor, whether the ceiling stopped it, and how many bytes
      of an unread line it dropped. */
  datatype PageResult = PageResult(records: seq<Record>, next: Option<Cursor>, capped: bool, torn: nat)

  /** How a page stands once the line its cursor stopped inside is replayed, and how much that has read. */
  ghost function AfterReplay(file: seq<byte>, query: Query, parse: Normalizer, c: Cursor): Scan
    requires CursorIn(file, c)
  {
    Run(query, true, Fresh(c.recent), Replayed(file, parse, c))
  }

  function ReplayedBytes(file: seq<byte>, limits: Limits, c: Cursor): nat
    requires CursorIn(file, c) && limits.chunk > 0
  {
    if c.part == 0 then 0 else Probed(file, c.offset, 0, limits)
  }

  /** The page is still open at the ceiling. */
  ghost predicate PageCaps(file: seq<byte>, query: Query, parse: Normalizer, limits: Limits, c: Cursor)
    requires CursorIn(file, c) && limits.chunk > 0
  {
    var s := AfterReplay(file, query, parse, c);
    s.status == Open && TailCaps(file, query, parse, s, c.offset, ReplayedBytes(file, limits, c), limits)
  }

  /** What one page of `query` finds from a cursor when no ceiling stops it. */
  ghost function PageScanned(file: seq<byte>, query: Query, parse: Normalizer, c: Cursor): Scan
    requires CursorIn(file, c)
  {
    Run(query, true, Fresh(c.recent), Remaining(file, parse, c))
  }

  ghost function PageOf(file: seq<byte>, query: Query, parse: Normalizer, limits: Limits, c: Cursor): PageResult
    requires CursorIn(file, c) && limits.chunk > 0
  {
    if PageCaps(file, query, parse, limits, c) then
      var e := CapEnd(c.offset, ReplayedBytes(file, limits, c), limits);
      var s := AtCeiling(file, query, parse, AfterReplay(file, query, parse, c), c.offset, e);
      PageResult(s.out, Some(Cursor(e, 0, s.recent)), true, Torn(file, e, c.offset))
    else
      var s := PageScanned(file, query, parse, c);
      PageResult(s.out, if s.status.Full? then Some(s.status.next) else None, false, 0)
  }

  /** No page has more records than its limit, and one that ends before its time has exactly as many. */
  lemma PageLimited(file: seq<byte>, query: Query, parse: Normalizer, limits: Limits, c: Cursor)
    requires CursorIn(file, c) && limits.chunk > 0
    ensures var p := PageOf(file, query, parse, limits, c);
      |p.records| <= query.limit && (p.next.Some? && !p.capped ==> |p.records| == query.limit)
  {
    RunLimited(query, Fresh(c.recent), Remaining(file, parse, c));
    RunLimited(query, Fresh(c.recent), Replayed(file, parse, c));
    if PageCaps(file, query, parse, limits, c) {
      var e := CapEnd(c.offset, ReplayedBytes(file, limits, c), limits);
      RunLimited(query, AfterReplay(file, query, parse, c),
        Items(LinesDown(file, c.offset, e + Torn(file, e, c.offset)), parse));
    }
  }

  /** One newest-first page of at most `query.limit` records, read backwards in chunks. */
  method ReadPageBackwards(file: seq<byte>, query: Query, parse: Normalizer, cursor: Option<Cursor>, limits: Limits)
    returns (page: Page)
    requires limits.chunk > 0 && LinesWithin(file, limits.line)
    requires file != [] ==> file[0] != NEWLINE
    requires CursorIn(file, StartOf(file, cursor))
    ensures page.scanCapped <==> PageCaps(file, query, parse, limits, StartOf(file, cursor))
    ensures var p := PageOf(file, query, parse, limits, StartOf(file, cursor));
      page.records == p.records && page.cursor == p.next && (page.hasMore <==> p.next.Some?)
    ensures |page.records| <= query.limit
    ensures page.hasMore && !page.scanCapped ==> |page.records| == query.limit
    ensures page.scanCapped ==> limits.scan <= page.bytesRead < |file|
  {
    var from := StartOf(file, cursor);
    PageLimited(file, query, parse, limits, from);
    var reader := new PageReader(query, parse, from.recent);
    var bytesRead: nat := 0;
    ghost var after := reader.State();
    if from.part > 0 {
      var done;
      done, bytesRead, after := ReplayLine(reader, file, from, limits);
      if done {
        RunAppend(query, true, Fresh(from.recent), Replayed(file, parse, from),
          Items(TailLines(file, from.offset), parse));
        RunClosed(query, true, after, Items(TailLines(file, from.offset), parse));
        return Page(reader.out, reader.next, reader.hasMore, bytesRead, false);
      }
    }
    RunAppend(query, true, Fresh(from.recent), Replayed(file, parse, from), Items(TailLines(file, from.offset), parse));
    assert from.part == 0 ==>
      Replayed(file, parse, from) + Items(TailLines(file, from.offset), parse) == Remaining(file, parse, from);
    page := ReadTail(reader, file, from, bytesRead, limits);
  }

  /** The ceiling stops no page of a file that is not larger. */
  lemma SmallFileNeverCapped(file: seq<byte>, query: Query, parse: Normalizer, limits: Limits, c: Cursor)
    requires CursorIn(file, c) && limits.chunk > 0 && |file| <= limits.scan
    ensures !PageCaps(file, query, parse, limits, c)
  {
  }

  /** What one unlimited scan still reports from a cursor. */
  ghost function LeftAt(file: seq<byte>, query: Query, parse: Normalizer, c: Cursor): seq<Record>
    requires CursorIn(file, c)
  {
    Unlimited(query, c.recent, Remaining(file, parse, c))
  }

  lemma ContinueFrom(query: Query, s: Scan, items: seq<Item>)
    requires s.status == Open
    ensures Run(query, false, s, items).out == s.out + Unlimited(query, s.recent, items)
  {
    RunShift(query, Fresh(s.recent), s.out, items);
    assert s.out + [] == s.out;
    assert s == Fresh(s.recent).(out := s.out + Fresh(s.recent).out);
  }

  /** The cursor of a full page is strictly earlier than the one it started from; at a line
      boundary, the page with what its cursor still reports is the unlimited scan. */
  lemma PageContinues(file: seq<byte>, query: Query, parse: Normalizer, c: Cursor)
    requires CursorIn(file, c) && query.limit >= 1
    ensures var page := PageScanned(file, query, parse, c);
      match page.status
      case Full(d) =>
        && CursorIn(file, d) && Earlier(d, c)
        && (Boundary(file, c.offset) ==>
              Boundary(file, d.offset) && LeftAt(file, query, parse, c) == page.out + LeftAt(file, query, parse, d))
      case _ => LeftAt(file, query, parse, c) == page.out
  {
    var items := Remaining(file, parse, c);
    var page := Run(query, true, Fresh(c.recent), items);
    var n := StopsAt(query, Fresh(c.recent), items);
    PageSplits(query, Fresh(c.recent), items);
    if page.status.Full? {
      RemainingPlaced(file, parse, c, n, page.recent);
      if Boundary(file, c.offset) {
        RemainingResume(file, parse, c, n, page.recent);
        ContinueFrom(query, page.(status := Open), items[n..]);
      }
    }
  }

  /** So does a capped page that tore no line. */
  lemma CappedContinues(file: seq<byte>, query: Query, parse: Normalizer, limits: Limits, c: Cursor)
    requires CursorIn(file, c) && limits.chunk > 0 && Boundary(file, c.offset)
    requires PageCaps(file, query, parse, limits, c) && PageOf(file, query, parse, limits, c).torn == 0
    ensures var p := PageOf(file, query, parse, limits, c);
      && CursorIn(file, p.next.value) && Boundary(file, p.next.value.offset)
      && LeftAt(file, query, parse, c) == p.records + LeftAt(file, query, parse, p.next.value)
  {
    var e := PageOf(file, query, parse, limits, c).next.value.offset;
    var above, older := Items(LinesDown(file, c.offset, e), parse), Items(TailLines(file, e), parse);
    TornCutsBelow(file, e, e, c.offset);
    TailLinesCut(file, c.offset, e);
    ItemsAppend(LinesDown(file, c.offset, e), TailLines(file, e), parse);
    assert Replayed(file, parse, c) + (above + older) == Remaining(file, parse, c);
    ThreeStretches(query, Fresh(c.recent), Replayed(file, parse, c), above, older);
  }

  /** Two stretches that leave a page open, and what an unlimited scan reports after them. */
  lemma ThreeStretches(query: Query, s: Scan, first: seq<Item>, second: seq<Item>, third: seq<Item>)
    requires Run(query, true, s, first).status == Open
    requires Run(query, true, Run(query, true, s, first), second).status == Open
    ensures var taken := Run(query, true, Run(query, true, s, first), second);
      Run(query, false, s, first + (second + third)).out == taken.out + Unlimited(query, taken.recent, third)
  {
    var m := Run(query, true, s, first);
    RunOpenSame(query, s, first);
    RunOpenSame(query, m, second);
    RunAppend(query, false, s, first, second + third);
    RunAppend(query, false, m, second, third);
    ContinueFrom(query, Run(query, true, m, second), third);
  }

  /** A page's cursor lies in the file and is strictly earlier than the one it started from. */
  lemma PageAdvances(file: seq<byte>, query: Query, parse: Normalizer, limits: Limits, c: Cursor)
    requires CursorIn(file, c) && limits.chunk > 0 && limits.scan > 0 && query.limit >= 1
    ensures var p := PageOf(file, query, parse, limits, c);
      p.next.Some? ==> CursorIn(file, p.next.value) && Earlier(p.next.value, c)
  {
    if !PageCaps(file, query, parse, limits, c) { PageContinues(file, query, parse, c); }
  }

  /** The records of the pages that follow one another from a cursor. */
  ghost function WalkOf(file: seq<byte>, query: Query, parse: Normalizer, limits: Limits, c: Cursor): seq<Record>
    requires CursorIn(file, c) && limits.chunk > 0 && limits.scan > 0 && query.limit >= 1
    decreases c.offset, c.part
  {
    var p := PageOf(file, query, parse, limits, c);
    PageAdvances(file, query, parse, limits, c);
    if p.next.None? then p.records else p.records + WalkOf(file, query, parse, limits, p.next.value)
  }

  /** Some page on the way tears a line. */
  ghost predicate Tears(file: seq<byte>, query: Query, parse: Normalizer, limits: Limits, c: Cursor)
    requires CursorIn(file, c) && limits.chunk > 0 && limits.scan > 0 && query.limit >= 1
    decreases c.offset, c.part
  {
    var p := PageOf(file, query, parse, limits, c);
    PageAdvances(file, query, parse, limits, c);
    p.torn > 0 || (p.next.Some? && Tears(file, query, parse, limits, p.next.value))
  }

  /** Pages that tear no line are together one unlimited scan of what was left. */
  lemma {:induction false} WalkIsWholeScan(file: seq<byte>, query: Query, parse: Normalizer, limits: Limits, c: Cursor)
    requires CursorIn(file, c) && limits.chunk > 0 && limits.scan > 0 && query.limit >= 1
    requires Boundary(file, c.offset) && !Tears(file, query, parse, limits, c)
    ensures WalkOf(file, query, parse, limits, c) == LeftAt(file, query, parse, c)
    decreases c.offset, c.part
  {
    var p := PageOf(file, query, parse, limits, c);
    PageAdvances(file, query, parse, limits, c);
    if PageCaps(file, query, parse, limits, c) {
      CappedContinues(file, query, parse, limits, c);
    } else {
      PageContinues(file, query, parse, c);
    }
    if p.next.Some? { WalkIsWholeScan(file, query, parse, limits, p.next.value); }
  }

  /** A file no larger than the ceiling is never torn. */
  lemma {:induction false} SmallFileNeverTorn(file: seq<byte>, query: Query, parse: Normalizer, limits: Limits,
                                              c: Cursor)
    requires CursorIn(file, c) && limits.chunk > 0 && limits.scan > 0 && query.limit >= 1 && |file| <= limits.scan
    ensures !Tears(file, query, parse, limits, c)
    decreases c.offset, c.part
  {
    SmallFileNeverCapped(file, query, parse, limits, c);
    PageAdvances(file, query, parse, limits, c);
    var p := PageOf(file, query, parse, limits, c);
    if p.next.Some? { SmallFileNeverTorn(file, query, parse, limits, p.next.value); }
  }

  const ANY: Candidate := Candidate(Message, User, NoStamp, "m", None, "m")

  /** A normalizer that makes one record of one text and nothing of any other. */
  ghost predicate Only(parse: Normalizer, text: seq<byte>) { forall t :: parse(t) == if t == text then [ANY] else [] }

  function Wide(limit: nat): Query { Query(limit, {Message}, {User}, None) }

  /** The records of the lines with this text. */
  function Found(lines: seq<Line>, text: seq<byte>): seq<Record> {
    if lines == [] then [] else FoundIn(lines[0], text) + Found(lines[1..], text)
  }

  function FoundIn(l: Line, text: seq<byte>): seq<Record> {
    if l.text == text then [Record(l.offset, None, ANY)] else []
  }

  lemma {:induction false} FoundAt(lines: seq<Line>, text: seq<byte>, offset: nat)
    ensures Record(offset, None, ANY) in Found(lines, text) <==> Line(offset, text) in lines
  {
    if lines != [] { FoundAt(lines[1..], text, offset); }
  }

  lemma {:induction false} OnlyScan(limit: nat, limited: bool, s: Scan, lines: seq<Line>, parse: Normalizer,
                                    text: seq<byte>)
    requires Only(parse, text) && s.status == Open && (limited ==> |s.out| + |lines| <= limit)
    ensures Run(Wide(limit), limited, s, Items(lines, parse)) == s.(out := s.out + Found(lines, text))
    decreases |lines|
  {
    if lines == [] {
      assert s.out + [] == s.out;
    } else {
      var first := FoundIn(lines[0], text);
      OnlyFirst(limit, limited, s, lines[0], lines[1..], parse, text);
      assert [lines[0]] + lines[1..] == lines;
      OnlyScan(limit, limited, s.(out := s.out + first), lines[1..], parse, text);
      AppendTwice(s.out, first, Found(lines[1..], text));
    }
  }

  lemma OnlyFirst(limit: nat, limited: bool, s: Scan, l: Line, rest: seq<Line>, parse: Normalizer, text: seq<byte>)
    requires Only(parse, text) && s.status == Open && (limited ==> |s.out| < limit)
    ensures Run(Wide(limit), limited, s, Items([l] + rest, parse))
      == Run(Wide(limit), limited, s.(out := s.out + FoundIn(l, text)), Items(rest, parse))
  {
    assert ([l] + rest)[1..] == rest;
    if l.text == text {
      assert LineItems(l, [ANY], 1) == [Item(l.offset, 0, 1, ANY)];
      AnyAdmitted(limit, limited, s, l.offset, Items(rest, parse));
    } else {
      assert s.out + [] == s.out && [] + Items(rest, parse) == Items(rest, parse);
    }
  }

  lemma AnyAdmitted(limit: nat, limited: bool, s: Scan, offset: nat, rest: seq<Item>)
    requires s.status == Open && (limited ==> |s.out| < limit)
    ensures Run(Wide(limit), limited, s, [Item(offset, 0, 1, ANY)] + rest)
      == Run(Wide(limit), limited, s.(out := s.out + [Record(offset, None, ANY)]), rest)
  {
    var items := [Item(offset, 0, 1, ANY)] + rest;
    assert items[0] == Item(offset, 0, 1, ANY) && items[1..] == rest;
  }

  /** Whatever is asked for and however lines are read, a page that the ceiling stops leaves what its cursor resumes
      with. */
  ghost predicate CappedExact(file: seq<byte>, limits: Limits, c: Cursor)
    requires CursorIn(file, c) && limits.chunk > 0 && limits.scan > 0
  {
    forall query: Query, parse: Normalizer | query.limit >= 1 && PageCaps(file, query, parse, limits, c) ::
      var p := PageOf(file, query, parse, limits, c);
      CursorIn(file, p.next.value)
      && LeftAt(file, query, parse, c) == p.records + LeftAt(file, query, parse, p.next.value)
  }

  /** That holds exactly when the ceiling falls where no line is torn. Sizes and newlines decide. */
  lemma CappedExactIff(file: seq<byte>, limits: Limits, c: Cursor)
    requires CursorIn(file, c) && c.part == 0 && Boundary(file, c.offset) && limits.chunk > 0 && limits.scan > 0
    requires CapEnd(c.offset, 0, limits) > 0
    ensures CappedExact(file, limits, c) <==> Torn(file, CapEnd(c.offset, 0, limits), c.offset) == 0
  {
    var e := CapEnd(c.offset, 0, limits);
    if Torn(file, e, c.offset) == 0 {
      forall query: Query, parse: Normalizer | query.limit >= 1 && PageCaps(file, query, parse, limits, c)
        ensures var p := PageOf(file, query, parse, limits, c);
          CursorIn(file, p.next.value)
          && LeftAt(file, query, parse, c) == p.records + LeftAt(file, query, parse, p.next.value)
      {
        CappedContinues(file, query, parse, limits, c);
      }
    } else {
      TornLoses(file, limits, c);
    }
  }

  /** A torn line's record is missing when that line is the only one that has a record. */
  lemma TornLoses(file: seq<byte>, limits: Limits, c: Cursor)
    requires CursorIn(file, c) && c.part == 0 && limits.chunk > 0 && limits.scan > 0
    requires var e := CapEnd(c.offset, 0, limits); e > 0 && Torn(file, e, c.offset) > 0
    ensures !CappedExact(file, limits, c)
  {
    var e := CapEnd(c.offset, 0, limits);
    var end := e + Torn(file, e, c.offset);
    var text := file[LineStart(file, end)..end];
    var parse: Normalizer := t => if t == text then [ANY] else [];
    TornRecordLost(file, limits, c, e, end, parse);
  }

  lemma TornRecordLost(file: seq<byte>, limits: Limits, c: Cursor, e: nat, end: nat, parse: Normalizer)
    requires CursorIn(file, c) && c.part == 0 && limits.chunk > 0 && limits.scan > 0
    requires e == CapEnd(c.offset, 0, limits) && 0 < e < end == e + Torn(file, e, c.offset)
    requires Only(parse, file[LineStart(file, end)..end])
    ensures !CappedExact(file, limits, c)
  {
    var start, query, d := LineStart(file, end), Wide(|file| + 1), Cursor(e, 0, c.recent);
    var text := file[start..end];
    TornCutsBelow(file, e, e, c.offset);
    assert start <= e;
    TornLineMissing(file, c.offset, e, end);
    FoundAt(TailLines(file, c.offset), text, start);
    FoundAt(TailLines(file, e), text, start);
    FoundAt(LinesDown(file, c.offset, end), text, start);
    OnlyPage(file, limits, c, e, end, parse, text);
    OnlyLeft(file, c, parse, text);
    OnlyLeft(file, d, parse, text);
    NotExact(file, query, parse, limits, c, d, Record(start, None, ANY));
  }

  lemma NotExact(file: seq<byte>, query: Query, parse: Normalizer, limits: Limits, c: Cursor, d: Cursor, lost: Record)
    requires CursorIn(file, c) && CursorIn(file, d) && limits.chunk > 0 && limits.scan > 0 && query.limit >= 1
    requires PageCaps(file, query, parse, limits, c) && PageOf(file, query, parse, limits, c).next == Some(d)
    requires lost in LeftAt(file, query, parse, c) && lost !in LeftAt(file, query, parse, d)
    requires lost !in PageOf(file, query, parse, limits, c).records
    ensures !CappedExact(file, limits, c)
  {
  }

  lemma OnlyPage(file: seq<byte>, limits: Limits, c: Cursor, e: nat, end: nat, parse: Normalizer, text: seq<byte>)
    requires CursorIn(file, c) && c.part == 0 && limits.chunk > 0 && Only(parse, text)
    requires 0 < e == CapEnd(c.offset, 0, limits) && end == e + Torn(file, e, c.offset)
    ensures var query := Wide(|file| + 1);
      && PageCaps(file, query, parse, limits, c)
      && PageOf(file, query, parse, limits, c)
        == PageResult(Found(LinesDown(file, c.offset, end), text), Some(Cursor(e, 0, c.recent)), true, end - e)
  {
    var lines := LinesDown(file, c.offset, end);
    LinesFew(file, c.offset, end);
    OnlyScan(|file| + 1, true, Fresh(c.recent), lines, parse, text);
    assert [] + Found(lines, text) == Found(lines, text);
    PageFromCeiling(file, Wide(|file| + 1), parse, limits, c, e, end, Scan(Found(lines, text), c.recent, Open));
  }

  lemma PageFromCeiling(file: seq<byte>, query: Query, parse: Normalizer, limits: Limits, c: Cursor, e: nat, end: nat,
                        taken: Scan)
    requires CursorIn(file, c) && c.part == 0 && limits.chunk > 0 && taken.status == Open
    requires 0 < e == CapEnd(c.offset, 0, limits) && end == e + Torn(file, e, c.offset)
    requires Run(query, true, Fresh(c.recent), Items(LinesDown(file, c.offset, end), parse)) == taken
    ensures PageCaps(file, query, parse, limits, c)
    ensures PageOf(file, query, parse, limits, c)
      == PageResult(taken.out, Some(Cursor(e, 0, taken.recent)), true, end - e)
  {
    assert AfterReplay(file, query, parse, c) == Fresh(c.recent);
  }

  lemma OnlyLeft(file: seq<byte>, c: Cursor, parse: Normalizer, text: seq<byte>)
    requires CursorIn(file, c) && c.part == 0 && Only(parse, text)
    ensures LeftAt(file, Wide(|file| + 1), parse, c) == Found(TailLines(file, c.offset), text)
  {
    OnlyScan(|file| + 1, false, Fresh(c.recent), TailLines(file, c.offset), parse, text);
    assert [] + Found(TailLines(file, c.offset), text) == Found(TailLines(file, c.offset), text);
  }

  /** The torn line is among all lines, but neither above the ceiling nor below it. */
  lemma TornLineMissing(file: seq<byte>, offset: nat, e: nat, end: nat)
    requires e < end <= offset <= |file| && Clean(file, end, offset) && NewlineFree(file, e, end)
    ensures var torn := Line(LineStart(file, end), file[LineStart(file, end)..end]);
      && torn in TailLines(file, offset) && torn !in TailLines(file, e) && torn !in LinesDown(file, offset, end)
  {
    var torn := Line(LineStart(file, end), file[LineStart(file, end)..end]);
    TailLinesCut(file, offset, end);
    assert file[end - 1] != NEWLINE;
    assert TailLines(file, end)[0] == torn;
    TailLinesLength(file, e);
    LinesAbove(file, offset, end);
  }

  lemma {:induction false} LinesFew(file: seq<byte>, end: nat, floor: nat)
    requires end <= |file|
    ensures |LinesDown(file, end, floor)| <= end
  {
    if end > floor { LinesFew(file, if file[end - 1] == NEWLINE then end - 1 else LineStart(file, end), floor); }
  }

  lemma {:induction false} LinesAbove(file: seq<byte>, end: nat, floor: nat)
    requires Clean(file, floor, end)
    ensures forall l :: l in LinesDown(file, end, floor) ==> l.offset >= floor
  {
    if end > floor {
      if file[end - 1] == NEWLINE {
        LinesAbove(file, end - 1, floor);
      } else {
        LineStartAbove(file, floor, end);
        LinesAbove(file, LineStart(file, end), floor);
      }
    }
  }

  const BB: seq<byte> := [98, 98]
  const ALL: Query := Query(5, {Message}, {User}, None)

  function OnlyBB(text: seq<byte>): seq<Candidate> { if text == BB then [ANY] else [] }

  /** A file of one two-byte line, read byte by byte with a ceiling of one byte: the first page stops inside the line,
      the second begins there, and the line's record is on neither. */
  lemma TornLineLost()
    ensures var limits, start := Limits(1, 1, 2), Cursor(2, 0, []);
      && Tears(BB, ALL, OnlyBB, limits, start)
      && WalkOf(BB, ALL, OnlyBB, limits, start) == []
      && Unlimited(ALL, [], Items(NewestFirst(BB), OnlyBB)) == [Record(0, None, ANY)]
  {
    UntornLine();
    TornWalk();
  }

  lemma TornWalk()
    ensures var limits, start := Limits(1, 1, 2), Cursor(2, 0, []);
      Tears(BB, ALL, OnlyBB, limits, start) && WalkOf(BB, ALL, OnlyBB, limits, start) == []
  {
    TornFirstPage();
    TornSecondPage();
    TwoPages(BB, ALL, OnlyBB, Limits(1, 1, 2), Cursor(2, 0, []), Cursor(1, 0, []));
  }

  lemma TwoPages(file: seq<byte>, query: Query, parse: Normalizer, limits: Limits, c: Cursor, d: Cursor)
    requires CursorIn(file, c) && CursorIn(file, d) && limits.chunk > 0 && limits.scan > 0 && query.limit >= 1
    requires var p := PageOf(file, query, parse, limits, c); p.next == Some(d) && p.torn > 0 && p.records == []
    requires var p := PageOf(file, query, parse, limits, d); p.next == None && p.records == []
    ensures Tears(file, query, parse, limits, c) && WalkOf(file, query, parse, limits, c) == []
  {
    PageAdvances(file, query, parse, limits, c);
    assert WalkOf(file, query, parse, limits, d) == [];
  }

  lemma UntornLine()
    ensures Unlimited(ALL, [], Items(NewestFirst(BB), OnlyBB)) == [Record(0, None, ANY)]
  {
    var l := Line(0, BB);
    SplitOneLine(BB, 0, 2);
    assert BB[0..2] == BB;
    ReverseSnoc([], l);
    assert [] + [l] == [l] && [l] + Reverse([]) == [l];
    assert NewestFirst(BB) == [l];
    assert Items([l], OnlyBB) == LineItems(l, [ANY], 1) + Items([], OnlyBB);
    var i := Item(0, 0, 1, ANY);
    assert LineItems(l, [ANY], 1) == [i];
    var s := Step(ALL, false, Fresh([]), i);
    assert s == Scan([Record(0, None, ANY)], [], Open);
    assert Run(ALL, false, Fresh([]), [i]) == Run(ALL, false, s, []);
  }

  lemma TornFirstPage()
    ensures PageOf(BB, ALL, OnlyBB, Limits(1, 1, 2), Cursor(2, 0, []))
      == PageResult([], Some(Cursor(1, 0, [])), true, 1)
  {
    var limits := Limits(1, 1, 2);
    assert CapEnd(2, 0, limits) == CapEnd(1, 1, limits) == 1;
    assert NextNewline(BB, 2, 2) == NextNewline(BB, 1, 2) == 2;
    assert LinesDown(BB, 2, 2) == [];
    assert AtCeiling(BB, ALL, OnlyBB, Fresh([]), 2, 1) == Fresh([]);
  }

  lemma TornSecondPage()
    ensures PageOf(BB, ALL, OnlyBB, Limits(1, 1, 2), Cursor(1, 0, [])) == PageResult([], None, false, 0)
  {
    var limits, c := Limits(1, 1, 2), Cursor(1, 0, []);
    assert CapEnd(1, 0, limits) == CapEnd(0, 1, limits) == 0;
    LineStartUnique(BB, 0, 1);
    var head := Line(0, BB[0..1]);
    assert TailLines(BB, 1) == [head] + TailLines(BB, 0);
    assert |head.text| == 1 && OnlyBB(head.text) == [];
    assert Items([head], OnlyBB) == LineItems(head, [], 0) + Items([], OnlyBB);
    assert Remaining(BB, OnlyBB, c) == [];
  }

  ghost predicate EachEarlier(cursors: seq<Cursor>) {
    forall i :: 0 < i < |cursors| ==> Earlier(cursors[i], cursors[i - 1])
  }

  /** What is left at the end of a file is the plain scan of its whole lines. */
  lemma WholeScan(file: seq<byte>, query: Query, parse: Normalizer)
    ensures LeftAt(file, query, parse, Cursor(|file|, 0, [])) == Unlimited(query, [], Items(NewestFirst(file), parse))
    ensures RecordsDescend(LeftAt(file, query, parse, Cursor(|file|, 0, [])))
    ensures ReportsExactly(query, [], Items(NewestFirst(file), parse),
                           LeftAt(file, query, parse, Cursor(|file|, 0, [])))
  {
    TailLinesIsReverseSplit(file, |file|);
    UnlimitedDescends(query, file, parse, |file|, []);
    TailItemsCoherent(file, |file|, parse);
    var items := Items(TailLines(file, |file|), parse);
    forall i | i in items ensures i.part < i.parts {
      var k :| 0 <= k < |items| && items[k] == i;
    }
    UnlimitedReports(query, [], items);
  }

  /** Follows the cursors page by page. Unless a page tears a line, which no file within the ceiling has, the pages
      together are the records of one unlimited newest-first scan of the file's whole lines: in order, those of the
      kinds and roles asked for, down to the first that is too old, without the twins. */
  method WalkCursors(file: seq<byte>, query: Query, parse: Normalizer, limits: Limits)
    returns (walked: seq<Record>, cursors: seq<Cursor>)
    requires limits.chunk > 0 && limits.scan > 0 && LinesWithin(file, limits.line) && query.limit >= 1
    requires file != [] ==> file[0] != NEWLINE
    ensures walked == WalkOf(file, query, parse, limits, StartOf(file, None))
    ensures !Tears(file, query, parse, limits, StartOf(file, None)) ==>
      walked == Unlimited(query, [], Items(NewestFirst(file), parse)) && RecordsDescend(walked)
    ensures |file| <= limits.scan ==> walked == Unlimited(query, [], Items(NewestFirst(file), parse))
    ensures !Tears(file, query, parse, limits, StartOf(file, None)) || |file| <= limits.scan ==>
      ReportsExactly(query, [], Items(NewestFirst(file), parse), walked)
    ensures EachEarlier(cursors)
  {
    walked, cursors := FollowCursors(file, query, parse, limits);
    WalkMeans(file, query, parse, limits);
  }

  method FollowCursors(file: seq<byte>, query: Query, parse: Normalizer, limits: Limits)
    returns (walked: seq<Record>, cursors: seq<Cursor>)
    requires limits.chunk > 0 && limits.scan > 0 && LinesWithin(file, limits.line) && query.limit >= 1
    requires file != [] ==> file[0] != NEWLINE
    ensures walked == WalkOf(file, query, parse, limits, StartOf(file, None)) && EachEarlier(cursors)
  {
    walked, cursors := [], [];
    var cursor: Option<Cursor> := None;
    var more := true;
    NothingWalked(file, query, parse, limits);
    while more
      invariant CursorIn(file, StartOf(file, cursor)) && Trail(cursors, cursor)
      invariant WalkedTo(file, query, parse, limits, walked, cursor, more)
      decreases more, StartOf(file, cursor).offset, StartOf(file, cursor).part
    {
      ghost var was, at := cursor, StartOf(file, cursor);
      var records;
      records, cursor, more := WalkPage(file, query, parse, limits, cursor, walked);
      if more {
        TrailOn(cursors, was, at, cursor.value);
        cursors := cursors + [cursor.value];
      }
      walked := walked + records;
    }
  }

  /** What was walked and what is still to walk is the whole walk. */
  ghost predicate WalkedTo(file: seq<byte>, query: Query, parse: Normalizer, limits: Limits, walked: seq<Record>,
                           cursor: Option<Cursor>, more: bool)
    requires limits.chunk > 0 && limits.scan > 0 && query.limit >= 1 && CursorIn(file, StartOf(file, cursor))
  {
    WalkOf(file, query, parse, limits, StartOf(file, None)) ==
      if more then walked + WalkOf(file, query, parse, limits, StartOf(file, cursor)) else walked
  }

  lemma NothingWalked(file: seq<byte>, query: Query, parse: Normalizer, limits: Limits)
    requires limits.chunk > 0 && limits.scan > 0 && query.limit >= 1
    ensures WalkedTo(file, query, parse, limits, [], None, true)
  {
    var whole := WalkOf(file, query, parse, limits, StartOf(file, None));
    assert [] + whole == whole;
  }

  method WalkPage(file: seq<byte>, query: Query, parse: Normalizer, limits: Limits, cursor: Option<Cursor>,
                  ghost walked: seq<Record>) returns (records: seq<Record>, next: Option<Cursor>, more: bool)
    requires limits.chunk > 0 && limits.scan > 0 && LinesWithin(file, limits.line) && query.limit >= 1
    requires file != [] ==> file[0] != NEWLINE
    requires CursorIn(file, StartOf(file, cursor)) && WalkedTo(file, query, parse, limits, walked, cursor, true)
    ensures CursorIn(file, StartOf(file, next)) && (!more ==> next == cursor)
    ensures more ==> next.Some? && Earlier(next.value, StartOf(file, cursor))
    ensures WalkedTo(file, query, parse, limits, walked + records, next, more)
  {
    var page := ReadPageBackwards(file, query, parse, cursor, limits);
    WalkGoesOn(file, query, parse, limits, StartOf(file, cursor), walked);
    records, more := page.records, page.hasMore;
    next := if more then page.cursor else cursor;
  }

  /** One more page of the walk. */
  lemma WalkGoesOn(file: seq<byte>, query: Query, parse: Normalizer, limits: Limits, c: Cursor, walked: seq<Record>)
    requires CursorIn(file, c) && limits.chunk > 0 && limits.scan > 0 && query.limit >= 1
    ensures var p, whole := PageOf(file, query, parse, limits, c), walked + WalkOf(file, query, parse, limits, c);
      if p.next.None? then walked + p.records == whole
      else
        CursorIn(file, p.next.value) && Earlier(p.next.value, c)
        && (walked + p.records) + WalkOf(file, query, parse, limits, p.next.value) == whole
  {
    var p := PageOf(file, query, parse, limits, c);
    PageAdvances(file, query, parse, limits, c);
    if p.next.Some? { AppendTwice(walked, p.records, WalkOf(file, query, parse, limits, p.next.value)); }
  }

  /** What the pages from the end of a file come to. */
  lemma WalkMeans(file: seq<byte>, query: Query, parse: Normalizer, limits: Limits)
    requires limits.chunk > 0 && limits.scan > 0 && query.limit >= 1
    ensures var walked, start := WalkOf(file, query, parse, limits, StartOf(file, None)), StartOf(file, None);
      && (!Tears(file, query, parse, limits, start) ==>
            walked == Unlimited(query, [], Items(NewestFirst(file), parse)) && RecordsDescend(walked)
            && ReportsExactly(query, [], Items(NewestFirst(file), parse), walked))
      && (|file| <= limits.scan ==> !Tears(file, query, parse, limits, start))
  {
    var start := StartOf(file, None);
    WholeScan(file, query, parse);
    if |file| <= limits.scan { SmallFileNeverTorn(file, query, parse, limits, start); }
    if !Tears(file, query, parse, limits, start) { WalkIsWholeScan(file, query, parse, limits, start); }
  }

  /** The cursors met, and the last of them. */
  ghost predicate Trail(cursors: seq<Cursor>, last: Option<Cursor>) {
    EachEarlier(cursors) && last == if cursors == [] then None else Some(cursors[|cursors| - 1])
  }

  lemma TrailOn(cursors: seq<Cursor>, last: Option<Cursor>, at: Cursor, next: Cursor)
    requires Trail(cursors, last) && (last.Some? ==> last.value == at) && Earlier(next, at)
    ensures Trail(cursors + [next], Some(next))
  {
  }
}
