/** What a filtered newest-first page means, over the flat list of candidate records. */
module PageScan {
  import opened Common
  import opened LineScan

  datatype Kind = Message | Reasoning | ToolCall | ToolResult | Trace
  datatype Role = User | Assistant | System | Tool
  datatype Representation = Event | Response
  /** A record's timestamp: none, one that does not parse, or milliseconds. */
  datatype Stamp = NoStamp | BadStamp | At(ms: int)

  /** One normalized record of a line; `key` is its role with its collapsed text. */
  datatype Candidate = Candidate(kind: Kind, role: Role, stamp: Stamp, key: string,
                                 representation: Option<Representation>, text: string)
  datatype Recent = Recent(key: string, stamp: Stamp, representation: Representation)
  datatype Query = Query(limit: nat, kinds: set<Kind>, roles: set<Role>, since: Option<int>)
  datatype Record = Record(seqno: nat, part: Option<nat>, candidate: Candidate)
  datatype Cursor = Cursor(offset: nat, part: nat, recent: seq<Recent>)

  /** The per-engine mapping from the bytes of a line to its non-blank records. */
  type Normalizer = seq<byte> -> seq<Candidate>

  const WINDOW := 8
  const TWIN_MS := 2000

  /** Two stamps that do not keep a message from being the twin of another. */
  predicate NearStamps(a: Stamp, b: Stamp) {
    match (a, b)
    case (At(x), At(y)) => -TWIN_MS <= x - y <= TWIN_MS
    case (NoStamp, _) => true
    case (_, NoStamp) => true
    case _ => false
  }

  predicate Twinned(recent: seq<Recent>, c: Candidate)
    requires c.representation.Some?
  {
    exists i :: 0 <= i < |recent| && recent[i].key == c.key
             && recent[i].representation != c.representation.value && NearStamps(recent[i].stamp, c.stamp)
  }

  predicate Windowed(c: Candidate) {
    c.kind == Message && c.representation.Some?
  }

  function Remember(recent: seq<Recent>, c: Candidate): (r: seq<Recent>)
    requires Windowed(c)
    ensures |recent| <= WINDOW ==> |r| <= WINDOW
  {
    var all := [Recent(c.key, c.stamp, c.representation.value)] + recent;
    if |all| > WINDOW then all[..|all| - 1] else all
  }

  predicate TooOld(q: Query, c: Candidate) {
    q.since.Some? && c.stamp.At? && c.stamp.ms < q.since.value
  }

  /** One record of one line, with its place in the file. */
  datatype Item = Item(offset: nat, part: nat, parts: nat, candidate: Candidate)

  function RecordOf(i: Item): Record {
    Record(i.offset, if i.parts > 1 then Some(i.part) else None, i.candidate)
  }

  /** The first `count` parts of a line, newest first. */
  function LineItems(l: Line, records: seq<Candidate>, count: nat): (r: seq<Item>)
    requires count <= |records|
    ensures |r| == count
    ensures forall k :: 0 <= k < count ==> r[k] == Item(l.offset, count - 1 - k, |records|, records[count - 1 - k])
  {
    if count == 0 then []
    else [Item(l.offset, count - 1, |records|, records[count - 1])] + LineItems(l, records, count - 1)
  }

  function Items(lines: seq<Line>, parse: Normalizer): seq<Item> {
    if lines == [] then []
    else LineItems(lines[0], parse(lines[0].text), |parse(lines[0].text)|) + Items(lines[1..], parse)
  }

  lemma {:induction false} ItemsAppend(a: seq<Line>, b: seq<Line>, parse: Normalizer)
    ensures Items(a + b, parse) == Items(a, parse) + Items(b, parse)
  {
    if a == [] {
      assert a + b == b;
    } else {
      assert (a + b)[1..] == a[1..] + b;
      ItemsAppend(a[1..], b, parse);
    }
  }

  datatype Status = Open | Full(next: Cursor) | Ended
  datatype Scan = Scan(out: seq<Record>, recent: seq<Recent>, status: Status)

  /** The window and the filter, without a page limit. */
  function Admit(q: Query, s: Scan, i: Item): Scan {
    var c := i.candidate;
    var recent := if Windowed(c) then Remember(s.recent, c) else s.recent;
    if Windowed(c) && Twinned(s.recent, c) then s.(recent := recent)
    else if c.kind !in q.kinds || c.role !in q.roles then s.(recent := recent)
    else s.(out := s.out + [RecordOf(i)], recent := recent)
  }

  function Step(q: Query, limited: bool, s: Scan, i: Item): Scan {
    if s.status != Open then s
    else if TooOld(q, i.candidate) then s.(status := Ended)
    else if limited && |s.out| >= q.limit then s.(status := Full(Cursor(i.offset, i.part + 1, s.recent)))
    else Admit(q, s, i)
  }

  function Run(q: Query, limited: bool, s: Scan, items: seq<Item>): Scan
    decreases |items|
  {
    if items == [] then s else Run(q, limited, Step(q, limited, s, items[0]), items[1..])
  }

  function Fresh(recent: seq<Recent>): Scan {
    Scan([], recent, Open)
  }

  lemma {:induction false} RunAppend(q: Query, limited: bool, s: Scan, a: seq<Item>, b: seq<Item>)
    ensures Run(q, limited, s, a + b) == Run(q, limited, Run(q, limited, s, a), b)
    decreases |a|
  {
    if a == [] {
      assert a + b == b;
    } else {
      assert (a + b)[0] == a[0] && (a + b)[1..] == a[1..] + b;
      RunAppend(q, limited, Step(q, limited, s, a[0]), a[1..], b);
    }
  }

  lemma {:induction false} RunClosed(q: Query, limited: bool, s: Scan, items: seq<Item>)
    requires s.status != Open
    ensures Run(q, limited, s, items) == s
    decreases |items|
  {
    if items != [] { RunClosed(q, limited, s, items[1..]); }
  }

  /** A limited scan keeps within the limit, and stops at it for nothing less. */
  lemma {:induction false} RunLimited(q: Query, s: Scan, items: seq<Item>)
    requires s.status == Open && |s.out| <= q.limit
    ensures var page := Run(q, true, s, items);
      |page.out| <= q.limit && (page.status.Full? ==> |page.out| == q.limit)
    decreases |items|
  {
    if items != [] {
      var t := Step(q, true, s, items[0]);
      if t.status == Open { RunLimited(q, t, items[1..]); } else { RunClosed(q, true, t, items[1..]); }
    }
  }

  /** A limited run that did not stop is the unlimited run. */
  lemma {:induction false} RunOpenSame(q: Query, s: Scan, items: seq<Item>)
    requires Run(q, true, s, items).status == Open
    ensures Run(q, false, s, items) == Run(q, true, s, items)
    decreases |items|
  {
    if items != [] {
      var t := Step(q, true, s, items[0]);
      if t.status != Open { RunClosed(q, true, t, items[1..]); }
      RunOpenSame(q, t, items[1..]);
    }
  }

  /** The records an unlimited scan adds do not depend on those already kept. */
  lemma {:induction false} RunShift(q: Query, s: Scan, kept: seq<Record>, items: seq<Item>)
    ensures var a, b := Run(q, false, s, items), Run(q, false, s.(out := kept + s.out), items);
      b == a.(out := kept + a.out)
    decreases |items|
  {
    if items != [] {
      var n := Step(q, false, s, items[0]);
      RunShift(q, n, kept, items[1..]);
      var m := Step(q, false, s.(out := kept + s.out), items[0]);
      assert m == n.(out := kept + n.out) by {
        assert kept + s.out + [RecordOf(items[0])] == kept + (s.out + [RecordOf(items[0])]);
      }
    }
  }

  /** Everything one unlimited scan reports from here. */
  function Unlimited(q: Query, recent: seq<Recent>, items: seq<Item>): seq<Record> {
    Run(q, false, Fresh(recent), items).out
  }

  /** Where a limited page stops: at an item it names, or never. */
  function StopsAt(q: Query, s: Scan, items: seq<Item>): (n: nat)
    ensures n <= |items|
    decreases |items|
  {
    if items == [] || s.status != Open then 0
    else
      var t := Step(q, true, s, items[0]);
      if t.status.Full? then 0 else 1 + StopsAt(q, t, items[1..])
  }

  /** A limited page and the unlimited scan of what it left make the unlimited scan. */
  lemma {:induction false} PageSplits(q: Query, s: Scan, items: seq<Item>)
    requires s.status == Open
    ensures var page, n := Run(q, true, s, items), StopsAt(q, s, items);
      match page.status
      case Full(c) =>
        && n < |items| && c == Cursor(items[n].offset, items[n].part + 1, page.recent)
        && (|s.out| < q.limit ==> n > 0)
        && Run(q, false, s, items) == Run(q, false, page.(status := Open), items[n..])
      case _ => Run(q, false, s, items) == page
    decreases |items|
  {
    if items != [] {
      var t := Step(q, true, s, items[0]);
      if t.status == Open {
        PageSplits(q, t, items[1..]);
        var n := StopsAt(q, t, items[1..]);
        assert items[1..][n..] == items[1 + n..];
      } else {
        RunClosed(q, true, t, items[1..]);
        if t.status == Ended {
          RunClosed(q, false, t, items[1..]);
        } else {
          assert items[0..] == items;
        }
      }
    }
  }

  /** Items in file order: strictly descending in (offset, part). */
  predicate Below(i: Item, j: Item) {
    i.offset < j.offset || (i.offset == j.offset && i.part < j.part)
  }

  ghost predicate Descending(items: seq<Item>) {
    forall i, j :: 0 <= i < j < |items| ==> Below(items[j], items[i])
  }

  lemma {:induction false} TailItemsDescend(file: seq<byte>, end: nat, parse: Normalizer)
    requires end <= |file|
    ensures Descending(Items(TailLines(file, end), parse))
    ensures forall i :: i in Items(TailLines(file, end), parse) ==> i.offset < end
  {
    if end == 0 {
    } else if file[end - 1] == NEWLINE {
      TailItemsDescend(file, end - 1, parse);
    } else {
      var start := LineStart(file, end);
      TailItemsDescend(file, start, parse);
      TailLinesStep(file, end);
    }
  }

  lemma TailLinesStep(file: seq<byte>, end: nat)
    requires 0 < end <= |file| && file[end - 1] != NEWLINE
    ensures var start := LineStart(file, end);
      && start < end
      && TailLines(file, end)[0] == Line(start, file[start..end])
      && TailLines(file, end)[1..] == TailLines(file, start)
  {
  }

  /** The whole line at `offset`. */
  function LineAt(file: seq<byte>, offset: nat): Line
    requires offset <= |file|
  {
    Line(offset, file[offset..NextNewline(file, offset, |file|)])
  }

  predicate CursorIn(file: seq<byte>, c: Cursor) {
    c.offset <= |file| && (c.part > 0 ==> c.offset < |file| && file[c.offset] != NEWLINE && IsLineStart(file, c.offset))
  }

  function Min(a: nat, b: nat): nat { if a < b then a else b }

  /** What is left to scan at a cursor: the earlier parts of its line, then the older lines. */
  function Remaining(file: seq<byte>, parse: Normalizer, c: Cursor): seq<Item>
    requires CursorIn(file, c)
  {
    var older := Items(TailLines(file, c.offset), parse);
    if c.part == 0 then older
    else
      var l := LineAt(file, c.offset);
      LineItems(l, parse(l.text), Min(c.part, |parse(l.text)|)) + older
  }

  /** A position no line straddles. */
  predicate Boundary(file: seq<byte>, end: nat) {
    end <= |file| && (end == |file| || file[end] == NEWLINE || IsLineStart(file, end))
  }

  lemma WholeLine(file: seq<byte>, end: nat)
    requires 0 < end && Boundary(file, end) && file[end - 1] != NEWLINE
    ensures Line(LineStart(file, end), file[LineStart(file, end)..end]) == LineAt(file, LineStart(file, end))
  {
    var start := LineStart(file, end);
    var stop := NextNewline(file, start, |file|);
    assert end < |file| ==> file[end] == NEWLINE;
    assert stop < |file| ==> file[stop] == NEWLINE;
    assert stop == end;
  }

  lemma LineItemsDrop(l: Line, records: seq<Candidate>, count: nat, n: nat)
    requires n <= count <= |records|
    ensures LineItems(l, records, count)[n..] == LineItems(l, records, count - n)
  {
  }

  lemma ItemResumes(l: Line, records: seq<Candidate>, count: nat, n: nat)
    requires n < count <= |records|
    ensures var newest := LineItems(l, records, count);
      && newest[n].offset == l.offset && newest[n].part + 1 == count - n
      && newest[n..] == LineItems(l, records, count - n)
  {
    LineItemsDrop(l, records, count, n);
  }

  /** `rest` is what a cursor just after item `i` resumes with. */
  ghost predicate Resumes(file: seq<byte>, parse: Normalizer, i: Item, rest: seq<Item>, end: nat) {
    var c := Cursor(i.offset, i.part + 1, []);
    CursorIn(file, c) && c.offset < end && rest == Remaining(file, parse, c)
  }

  /** Inside one whole line, the items after the n-th are the line's earlier parts and the older lines. */
  lemma LineResumes(file: seq<byte>, parse: Normalizer, offset: nat, count: nat, n: nat)
    requires offset < |file| && file[offset] != NEWLINE && IsLineStart(file, offset)
    requires n < count <= |parse(LineAt(file, offset).text)|
    ensures var l := LineAt(file, offset);
      var newest := LineItems(l, parse(l.text), count);
      Resumes(file, parse, newest[n], newest[n..] + Items(TailLines(file, offset), parse), offset + 1)
  {
    var l := LineAt(file, offset);
    ItemResumes(l, parse(l.text), count, n);
    ResumesInside(file, parse, LineItems(l, parse(l.text), count)[n], count - n, Items(TailLines(file, offset), parse));
  }

  lemma ResumesInside(file: seq<byte>, parse: Normalizer, i: Item, part: nat, older: seq<Item>)
    requires i.offset < |file| && file[i.offset] != NEWLINE && IsLineStart(file, i.offset) && i.part + 1 == part
    requires part <= |parse(LineAt(file, i.offset).text)| && older == Items(TailLines(file, i.offset), parse)
    ensures var l := LineAt(file, i.offset);
      Resumes(file, parse, i, LineItems(l, parse(l.text), part) + older, i.offset + 1)
  {
    RemainingInside(file, parse, i.offset, part);
  }

  lemma RemainingInside(file: seq<byte>, parse: Normalizer, offset: nat, part: nat)
    requires offset < |file| && file[offset] != NEWLINE && IsLineStart(file, offset)
    requires 0 < part <= |parse(LineAt(file, offset).text)|
    ensures var l := LineAt(file, offset);
      Remaining(file, parse, Cursor(offset, part, []))
        == LineItems(l, parse(l.text), part) + Items(TailLines(file, offset), parse)
  {
  }

  /** A range that does not end in a newline is its last whole line and the older ones. */
  lemma TailItemsStep(file: seq<byte>, parse: Normalizer, end: nat)
    requires 0 < end && Boundary(file, end) && file[end - 1] != NEWLINE
    ensures var start := LineStart(file, end);
      var l := LineAt(file, start);
      && start < end && file[start] != NEWLINE
      && Items(TailLines(file, end), parse)
         == LineItems(l, parse(l.text), |parse(l.text)|) + Items(TailLines(file, start), parse)
  {
    TailLinesStep(file, end);
    WholeLine(file, end);
  }

  /** The items after the n-th are exactly what its cursor resumes with. */
  lemma {:induction false} TailItemsResume(file: seq<byte>, parse: Normalizer, end: nat, n: nat)
    requires Boundary(file, end)
    requires n < |Items(TailLines(file, end), parse)|
    ensures Resumes(file, parse, Items(TailLines(file, end), parse)[n], Items(TailLines(file, end), parse)[n..], end)
    decreases end
  {
    if file[end - 1] == NEWLINE {
      TailItemsResume(file, parse, end - 1, n);
    } else {
      var start := LineStart(file, end);
      TailItemsStep(file, parse, end);
      var count := |parse(LineAt(file, start).text)|;
      if n < count {
        LineResumes(file, parse, start, count, n);
        ResumesLater(file, parse, LineItems(LineAt(file, start), parse(LineAt(file, start).text), count),
          Items(TailLines(file, start), parse), n, start + 1, end);
      } else {
        TailItemsResume(file, parse, start, n - count);
        ResumesLater(file, parse, LineItems(LineAt(file, start), parse(LineAt(file, start).text), count),
          Items(TailLines(file, start), parse), n, start, end);
      }
    }
  }

  /** Resuming inside either half of a list of items is resuming inside the whole. */
  lemma ResumesLater(file: seq<byte>, parse: Normalizer, newest: seq<Item>, older: seq<Item>, n: nat, near: nat,
                     end: nat)
    requires n < |newest| + |older| && near <= end
    requires if n < |newest| then Resumes(file, parse, newest[n], newest[n..] + older, near)
             else Resumes(file, parse, older[n - |newest|], older[n - |newest|..], near)
    ensures Resumes(file, parse, (newest + older)[n], (newest + older)[n..], end)
  {
    DropAppend(newest, older, n);
  }

  predicate Earlier(a: Cursor, b: Cursor) {
    a.offset < b.offset || (a.offset == b.offset && a.part < b.part)
  }

  /** The cursor of a full page resumes with exactly the items the page did not consume. */
  lemma RemainingResume(file: seq<byte>, parse: Normalizer, c: Cursor, n: nat, recent: seq<Recent>)
    requires CursorIn(file, c) && Boundary(file, c.offset)
    requires n < |Remaining(file, parse, c)|
    ensures var items := Remaining(file, parse, c);
      var d := Cursor(items[n].offset, items[n].part + 1, recent);
      && CursorIn(file, d) && Boundary(file, d.offset) && items[n..] == Remaining(file, parse, d)
      && (n > 0 ==> Earlier(d, c))
  {
    var items := Remaining(file, parse, c);
    if c.part == 0 {
      TailItemsResume(file, parse, c.offset, n);
    } else {
      var l := LineAt(file, c.offset);
      var newest := LineItems(l, parse(l.text), Min(c.part, |parse(l.text)|));
      DropAppend(newest, Items(TailLines(file, c.offset), parse), n);
      if n < |newest| {
        LineResumes(file, parse, c.offset, |newest|, n);
      } else {
        TailItemsResume(file, parse, c.offset, n - |newest|);
      }
    }
    assert Resumes(file, parse, items[n], items[n..], c.offset + 1);
  }

  /** Even after a torn line, every item names the start of a line and a place before the cursor. */
  lemma {:induction false} TailItemsPlaced(file: seq<byte>, parse: Normalizer, end: nat)
    requires end <= |file|
    ensures forall i :: i in Items(TailLines(file, end), parse) ==>
      i.offset < end && IsLineStart(file, i.offset) && file[i.offset] != NEWLINE
  {
    if end == 0 {
    } else if file[end - 1] == NEWLINE {
      TailItemsPlaced(file, parse, end - 1);
    } else {
      TailItemsPlaced(file, parse, LineStart(file, end));
      TailLinesStep(file, end);
    }
  }

  lemma RemainingPlaced(file: seq<byte>, parse: Normalizer, c: Cursor, n: nat, recent: seq<Recent>)
    requires CursorIn(file, c) && 0 < n < |Remaining(file, parse, c)|
    ensures var i := Remaining(file, parse, c)[n];
      CursorIn(file, Cursor(i.offset, i.part + 1, recent)) && Earlier(Cursor(i.offset, i.part + 1, recent), c)
  {
    var older := Items(TailLines(file, c.offset), parse);
    var i := Remaining(file, parse, c)[n];
    TailItemsPlaced(file, parse, c.offset);
    if c.part > 0 {
      var l := LineAt(file, c.offset);
      var count := Min(c.part, |parse(l.text)|);
      if n >= count { assert i == older[n - count]; }
    } else {
      assert i == older[n];
    }
  }

  /** An unlimited scan reports a subsequence of its items, so its records keep their order. */
  ghost predicate RecordsDescend(records: seq<Record>) {
    forall i, j :: 0 <= i < j < |records| ==> OlderRecord(records[j], records[i])
  }

  predicate OlderRecord(a: Record, b: Record) {
    a.seqno < b.seqno || (a.seqno == b.seqno && a.part.Some? && b.part.Some? && a.part.value < b.part.value)
  }

  /** Items of one line agree on how many parts the line has. */
  ghost predicate Coherent(items: seq<Item>) {
    forall i, j :: 0 <= i < |items| && 0 <= j < |items| && items[i].offset == items[j].offset ==>
      items[i].parts == items[j].parts && items[i].part < items[i].parts
  }

  lemma {:induction false} TailItemsCoherent(file: seq<byte>, end: nat, parse: Normalizer)
    requires end <= |file|
    ensures Coherent(Items(TailLines(file, end), parse))
  {
    if end == 0 {
    } else if file[end - 1] == NEWLINE {
      TailItemsCoherent(file, end - 1, parse);
    } else {
      var start := LineStart(file, end);
      TailItemsCoherent(file, start, parse);
      TailItemsDescend(file, start, parse);
      TailLinesStep(file, end);
    }
  }

  lemma {:induction false} RunDescends(q: Query, s: Scan, items: seq<Item>, all: seq<Item>, at: nat)
    requires at <= |all| && items == all[at..] && Descending(all) && Coherent(all)
    requires RecordsDescend(s.out)
    requires forall r :: r in s.out ==> exists k :: 0 <= k < at && r == RecordOf(all[k])
    ensures RecordsDescend(Run(q, false, s, items).out)
    decreases |items|
  {
    if items != [] {
      var t := Step(q, false, s, items[0]);
      assert items[0] == all[at] && items[1..] == all[at + 1..];
      forall r | r in t.out ensures exists k :: 0 <= k < at + 1 && r == RecordOf(all[k]) {
        if r in s.out {
          var k :| 0 <= k < at && r == RecordOf(all[k]);
        } else {
          assert r == RecordOf(all[at]);
        }
      }
      forall r | r in s.out ensures OlderRecord(RecordOf(all[at]), r) {
        var k :| 0 <= k < at && r == RecordOf(all[k]);
        assert Below(all[at], all[k]);
      }
      assert t.out == s.out || t.out == s.out + [RecordOf(all[at])];
      RunDescends(q, t, items[1..], all, at + 1);
    }
  }

  /** The unlimited scan of a file never repeats a record and goes strictly backwards. */
  lemma UnlimitedDescends(q: Query, file: seq<byte>, parse: Normalizer, end: nat, recent: seq<Recent>)
    requires end <= |file|
    ensures RecordsDescend(Unlimited(q, recent, Items(TailLines(file, end), parse)))
  {
    var items := Items(TailLines(file, end), parse);
    TailItemsDescend(file, end, parse);
    TailItemsCoherent(file, end, parse);
    assert items == items[0..];
    RunDescends(q, Fresh(recent), items, items, 0);
  }
}
