/** Which records an unlimited newest-first scan reports, told of the items' places alone. */
module PageReports {
  import opened Common
  import opened PageScan

  /** A message written twice can only be told from its twin by its representation. */
  predicate Paired(c: Candidate) { c.kind == Message && c.representation.Some? }

  /** The same text of the same role, in the other representation, with stamps that are missing or near. */
  predicate Twins(key: string, representation: Representation, stamp: Stamp, c: Candidate)
    requires Paired(c)
  {
    && key == c.key && representation != c.representation.value
    && (stamp.NoStamp? || c.stamp.NoStamp? || (stamp.At? && c.stamp.At? && -2000 <= stamp.ms - c.stamp.ms <= 2000))
  }

  /** How many of the items from one place up to another are paired messages. */
  function PairedIn(items: seq<Item>, from: nat, upto: nat): (n: nat)
    requires from <= upto <= |items|
    ensures n <= upto - from
  {
    if from == upto then 0
    else PairedIn(items, from, upto - 1) + if Paired(items[upto - 1].candidate) then 1 else 0
  }

  /** How far back the window reaches: eight messages, or as many as it came with. */
  function Span(recent: seq<Recent>): nat { if |recent| > 8 then |recent| else 8 }

  /** An item met before is this one's twin, and is still in the window. */
  predicate TwinItem(recent: seq<Recent>, items: seq<Item>, k: nat, j: nat)
    requires j < k < |items| && Paired(items[k].candidate)
  {
    var earlier := items[j].candidate;
    && Paired(earlier) && PairedIn(items, j + 1, k) < Span(recent)
    && Twins(earlier.key, earlier.representation.value, earlier.stamp, items[k].candidate)
  }

  /** A message the scan came with is this one's twin, and is still in the window. */
  predicate TwinRecent(recent: seq<Recent>, items: seq<Item>, k: nat, m: nat)
    requires m < |recent| && k < |items| && Paired(items[k].candidate)
  {
    && PairedIn(items, 0, k) + m < Span(recent)
    && Twins(recent[m].key, recent[m].representation, recent[m].stamp, items[k].candidate)
  }

  ghost predicate HasTwin(recent: seq<Recent>, items: seq<Item>, k: nat)
    requires k < |items|
  {
    Paired(items[k].candidate) &&
    ((exists j :: 0 <= j < k && TwinItem(recent, items, k, j))
     || exists m :: 0 <= m < |recent| && TwinRecent(recent, items, k, m))
  }

  /** Older than what was asked for. */
  predicate Old(q: Query, c: Candidate) { q.since.Some? && c.stamp.At? && c.stamp.ms < q.since.value }

  /** What is reported: nothing up to it is too old, its kind and role are asked for, and its twin was not just met. */
  ghost predicate Reported(q: Query, recent: seq<Recent>, items: seq<Item>, k: nat)
    requires k < |items|
  {
    && (forall j :: 0 <= j <= k ==> !Old(q, items[j].candidate))
    && items[k].candidate.kind in q.kinds && items[k].candidate.role in q.roles
    && !HasTwin(recent, items, k)
  }

  /** The record of an item: its line's offset and, in a line of several, its part. */
  predicate IsRecord(r: Record, i: Item) {
    && r.seqno == i.offset && r.candidate == i.candidate
    && r.part == if i.parts == 1 then None else Some(i.part)
  }

  /** These records are, in order, those of the first `n` items that are reported; `places` are where they stand. */
  ghost predicate Selects(q: Query, recent: seq<Recent>, items: seq<Item>, n: nat, records: seq<Record>, places: seq<nat>)
    requires n <= |items|
  {
    && |places| == |records|
    && (forall a :: 0 <= a < |places| ==> places[a] < n && IsRecord(records[a], items[places[a]]))
    && (forall a, b :: 0 <= a < b < |places| ==> places[a] < places[b])
    && forall k :: 0 <= k < n ==> (k in places <==> Reported(q, recent, items, k))
  }

  ghost predicate Selected(q: Query, recent: seq<Recent>, items: seq<Item>, n: nat, records: seq<Record>)
    requires n <= |items|
  {
    exists places :: Selects(q, recent, items, n, records, places)
  }

  ghost predicate ReportsExactly(q: Query, recent: seq<Recent>, items: seq<Item>, records: seq<Record>) {
    Selected(q, recent, items, |items|, records)
  }

  /** Every message met, the latest first, and then those the scan came with. */
  function Latest(recent: seq<Recent>, items: seq<Item>, n: nat): seq<Recent>
    requires n <= |items|
  {
    if n == 0 then recent
    else if Paired(items[n - 1].candidate) then
      var c := items[n - 1].candidate;
      [Recent(c.key, c.stamp, c.representation.value)] + Latest(recent, items, n - 1)
    else Latest(recent, items, n - 1)
  }

  lemma {:induction false} LatestItem(recent: seq<Recent>, items: seq<Item>, n: nat, j: nat)
    requires j < n <= |items| && Paired(items[j].candidate)
    ensures PairedIn(items, j + 1, n) < |Latest(recent, items, n)|
    ensures var c := items[j].candidate;
      Latest(recent, items, n)[PairedIn(items, j + 1, n)] == Recent(c.key, c.stamp, c.representation.value)
  {
    if j < n - 1 { LatestItem(recent, items, n - 1, j); }
  }

  lemma {:induction false} LatestRecent(recent: seq<Recent>, items: seq<Item>, n: nat)
    requires n <= |items|
    ensures |Latest(recent, items, n)| == PairedIn(items, 0, n) + |recent|
    ensures forall m :: 0 <= m < |recent| ==> Latest(recent, items, n)[PairedIn(items, 0, n) + m] == recent[m]
  {
    if n > 0 { LatestRecent(recent, items, n - 1); }
  }

  /** Where a message in the list of all comes from. */
  lemma {:induction false} LatestFrom(recent: seq<Recent>, items: seq<Item>, n: nat, i: nat) returns (j: nat)
    requires n <= |items| && i < PairedIn(items, 0, n)
    ensures j < n && Paired(items[j].candidate) && PairedIn(items, j + 1, n) == i
  {
    if !Paired(items[n - 1].candidate) {
      j := LatestFrom(recent, items, n - 1, i);
    } else if i == 0 {
      j := n - 1;
    } else {
      j := LatestFrom(recent, items, n - 1, i - 1);
    }
  }

  /** The window is the beginning of that list. */
  function Window(recent: seq<Recent>, items: seq<Item>, n: nat): seq<Recent>
    requires n <= |items|
  {
    var all := Latest(recent, items, n);
    if |all| > Span(recent) then all[..Span(recent)] else all
  }

  lemma WindowOn(recent: seq<Recent>, items: seq<Item>, n: nat)
    requires n < |items|
    ensures var c := items[n].candidate;
      Window(recent, items, n + 1)
        == if Windowed(c) then Remember(Window(recent, items, n), c) else Window(recent, items, n)
  {
    LatestRecent(recent, items, n);
  }

  /** An item has a twin exactly if the window holds one. */
  lemma TwinIff(recent: seq<Recent>, items: seq<Item>, k: nat)
    requires k < |items|
    ensures HasTwin(recent, items, k)
      <==> Windowed(items[k].candidate) && Twinned(Window(recent, items, k), items[k].candidate)
  {
    var c := items[k].candidate;
    var window, met := Window(recent, items, k), PairedIn(items, 0, k);
    LatestRecent(recent, items, k);
    if Windowed(c) && Twinned(window, c) {
      var i :| 0 <= i < |window| && window[i].key == c.key
        && window[i].representation != c.representation.value && NearStamps(window[i].stamp, c.stamp);
      if i < met {
        var j := LatestFrom(recent, items, k, i);
        LatestItem(recent, items, k, j);
        assert TwinItem(recent, items, k, j);
      } else {
        assert window[i] == recent[i - met];
        assert TwinRecent(recent, items, k, i - met);
      }
    }
    if HasTwin(recent, items, k) { TwinIn(recent, items, k); }
  }

  lemma TwinIn(recent: seq<Recent>, items: seq<Item>, k: nat)
    requires k < |items| && HasTwin(recent, items, k)
    ensures Twinned(Window(recent, items, k), items[k].candidate)
  {
    var window := Window(recent, items, k);
    LatestRecent(recent, items, k);
    if j :| 0 <= j < k && TwinItem(recent, items, k, j) {
      LatestItem(recent, items, k, j);
      assert window[PairedIn(items, j + 1, k)].key == items[k].candidate.key;
    } else {
      var m :| 0 <= m < |recent| && TwinRecent(recent, items, k, m);
      assert window[PairedIn(items, 0, k) + m] == recent[m];
    }
  }

  /** What the scan of the first `n` items is: stopped at one that is too old, or still open with its window. */
  ghost predicate ScanIs(q: Query, recent: seq<Recent>, items: seq<Item>, n: nat, s: Scan)
    requires n <= |items|
  {
    && Selected(q, recent, items, n, s.out)
    && (s.status == Ended <==> exists j :: 0 <= j < n && Old(q, items[j].candidate))
    && (s.status != Ended ==> s.status == Open && s.recent == Window(recent, items, n))
  }

  lemma SelectsOn(q: Query, recent: seq<Recent>, items: seq<Item>, n: nat, out: seq<Record>, r: Record)
    requires n < |items| && Selected(q, recent, items, n, out)
    ensures Reported(q, recent, items, n) && IsRecord(r, items[n]) ==> Selected(q, recent, items, n + 1, out + [r])
    ensures !Reported(q, recent, items, n) ==> Selected(q, recent, items, n + 1, out)
  {
    var places :| Selects(q, recent, items, n, out, places);
    if !Reported(q, recent, items, n) {
      assert Selects(q, recent, items, n + 1, out, places);
    } else if IsRecord(r, items[n]) {
      assert Selects(q, recent, items, n + 1, out + [r], places + [n]);
    }
  }

  /** One more item: it is reported exactly if it is to be. */
  lemma StepReports(q: Query, recent: seq<Recent>, items: seq<Item>, n: nat, s: Scan)
    requires n < |items| && ScanIs(q, recent, items, n, s)
    ensures var t := Step(q, false, s, items[n]);
      && (t.status == Ended <==> exists j :: 0 <= j < n + 1 && Old(q, items[j].candidate))
      && (t.status != Ended ==> t.status == Open && t.recent == Window(recent, items, n + 1))
      && t.out == if Reported(q, recent, items, n) then s.out + [RecordOf(items[n])] else s.out
  {
    TwinIff(recent, items, n);
    WindowOn(recent, items, n);
    assert Old(q, items[n].candidate) <==> TooOld(q, items[n].candidate);
  }

  lemma ScanOn(q: Query, recent: seq<Recent>, items: seq<Item>, n: nat, s: Scan)
    requires n < |items| && ScanIs(q, recent, items, n, s) && items[n].part < items[n].parts
    ensures ScanIs(q, recent, items, n + 1, Step(q, false, s, items[n]))
  {
    StepReports(q, recent, items, n, s);
    SelectsOn(q, recent, items, n, s.out, RecordOf(items[n]));
  }

  lemma {:induction false} ScanMeans(q: Query, recent: seq<Recent>, items: seq<Item>, n: nat)
    requires n <= |items| && forall i :: i in items ==> i.part < i.parts
    ensures ScanIs(q, recent, items, n, Run(q, false, Fresh(recent), items[..n]))
  {
    if n == 0 {
      assert Selects(q, recent, items, 0, [], []);
    } else {
      ScanMeans(q, recent, items, n - 1);
      assert items[..n] == items[..n - 1] + [items[n - 1]];
      RunAppend(q, false, Fresh(recent), items[..n - 1], [items[n - 1]]);
      ScanOn(q, recent, items, n - 1, Run(q, false, Fresh(recent), items[..n - 1]));
    }
  }

  /** An unlimited scan reports exactly what is to be reported, in order. */
  lemma UnlimitedReports(q: Query, recent: seq<Recent>, items: seq<Item>)
    requires forall i :: i in items ==> i.part < i.parts
    ensures ReportsExactly(q, recent, items, Unlimited(q, recent, items))
  {
    ScanMeans(q, recent, items, |items|);
    assert items[..|items|] == items;
  }

  /** A scan for the user's messages reports nothing of a line with one message of the assistant's. */
  lemma OtherRoleUnreported(q: Query, i: Item)
    requires i.candidate.role !in q.roles && i.part < i.parts
    ensures Unlimited(q, [], [i]) == []
  {
    UnlimitedReports(q, [], [i]);
    var places :| Selects(q, [], [i], 1, Unlimited(q, [], [i]), places);
    NoPlace(places, 0);
  }

  lemma NoPlace(places: seq<nat>, k: nat)
    requires k !in places && (places != [] ==> places[0] == k)
    ensures places == []
  {
  }
}
