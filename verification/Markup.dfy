/** Spans the privacy gate removes from visible HTML and Markdown. */
module Markup {
  import opened Common

  datatype Span = Span(start: nat, end: nat)

  predicate IsPunctuation(c: char) { c in "[]*_`~" }

  /** First index >= `from` of `c`, or the length of the text. */
  function IndexOf(text: string, c: char, from: nat): (r: nat)
    requires from <= |text|
    ensures from <= r <= |text|
    ensures forall k :: from <= k < r ==> text[k] != c
    ensures r < |text| ==> text[r] == c
    decreases |text| - from
  {
    if from == |text| || text[from] == c then from else IndexOf(text, c, from + 1)
  }

  /** What the regular expression of a scan state matches next: "<" only while it is still sought. */
  predicate Matches(c: char, punctuation: bool, openings: bool) {
    (openings && c == '<') || (punctuation && IsPunctuation(c))
  }

  function NextMatch(text: string, punctuation: bool, openings: bool, from: nat): (r: nat)
    requires from <= |text|
    ensures from <= r <= |text|
    ensures forall k :: from <= k < r ==> !Matches(text[k], punctuation, openings)
    ensures r < |text| ==> Matches(text[r], punctuation, openings)
    decreases |text| - from
  {
    if from == |text| || Matches(text[from], punctuation, openings) then from
    else NextMatch(text, punctuation, openings, from + 1)
  }

  /** The reference: leftmost matches of `<[^>]*>` (and of one punctuation character), position by
      position; an opening that no later ">" closes matches nothing. */
  function Reference(text: string, punctuation: bool, from: nat): seq<Span>
    requires from <= |text|
    decreases |text| - from
  {
    if from == |text| then []
    else if text[from] == '<' then
      var closing := IndexOf(text, '>', from + 1);
      if closing < |text| then [Span(from, closing + 1)] + Reference(text, punctuation, closing + 1)
      else Reference(text, punctuation, from + 1)
    else if punctuation && IsPunctuation(text[from]) then
      [Span(from, from + 1)] + Reference(text, punctuation, from + 1)
    else Reference(text, punctuation, from + 1)
  }

  /** Skipping characters that match nothing changes no span. */
  lemma {:induction false} ReferenceSkip(text: string, punctuation: bool, from: nat, to: nat)
    requires from <= to <= |text|
    requires forall k :: from <= k < to ==> !Matches(text[k], punctuation, true)
    ensures Reference(text, punctuation, from) == Reference(text, punctuation, to)
    decreases |text| - from
  {
    if from < to { ReferenceSkip(text, punctuation, from + 1, to); }
  }

  /** Once one opening is unclosable, no later one closes: the narrower pattern finds the same spans. */
  lemma {:induction false} ReferenceUnclosable(text: string, punctuation: bool, from: nat, to: nat)
    requires from <= to <= |text| && IndexOf(text, '>', from) == |text|
    requires forall k :: from <= k < to ==> !Matches(text[k], punctuation, false)
    ensures Reference(text, punctuation, from) == Reference(text, punctuation, to)
    decreases |text| - from
  {
    if from < to {
      UnclosedLater(text, from, from + 1);
      ReferenceUnclosable(text, punctuation, from + 1, to);
    }
  }

  lemma UnclosedLater(text: string, from: nat, to: nat)
    requires from <= to <= |text| && IndexOf(text, '>', from) == |text|
    ensures IndexOf(text, '>', to) == |text|
  {
  }

  lemma SkipToMatch(text: string, punctuation: bool, openings: bool, from: nat)
    requires from <= |text|
    requires !openings ==> punctuation && IndexOf(text, '>', from) == |text|
    ensures var start := NextMatch(text, punctuation, openings, from);
      && Reference(text, punctuation, from) == Reference(text, punctuation, start)
      && (!openings ==> IndexOf(text, '>', start) == |text|)
  {
    var start := NextMatch(text, punctuation, openings, from);
    if openings {
      ReferenceSkip(text, punctuation, from, start);
    } else {
      ReferenceUnclosable(text, punctuation, from, start);
      UnclosedLater(text, from, start);
    }
  }

  /** The scan with its pattern switch, as the generator runs it. */
  method PrivacyMarkupSpans(text: string, punctuation: bool) returns (spans: seq<Span>)
    ensures spans == Reference(text, punctuation, 0)
  {
    spans := [];
    var openings, lastIndex := true, 0;
    while true
      invariant 0 <= lastIndex <= |text|
      invariant spans + Reference(text, punctuation, lastIndex) == Reference(text, punctuation, 0)
      invariant !openings ==> punctuation && IndexOf(text, '>', lastIndex) == |text|
      decreases |text| - lastIndex
    {
      var start := NextMatch(text, punctuation, openings, lastIndex);
      SkipToMatch(text, punctuation, openings, lastIndex);
      if start == |text| { return; }
      if text[start] == '<' {
        var closing := IndexOf(text, '>', start + 1);
        if closing == |text| {
          if !punctuation {
            ReferenceUnclosable(text, punctuation, start + 1, |text|);
            return;
          }
          openings, lastIndex := false, start + 1;
        } else {
          AppendTwice(spans, [Span(start, closing + 1)], Reference(text, punctuation, closing + 1));
          spans := spans + [Span(start, closing + 1)];
          lastIndex := closing + 1;
        }
      } else {
        if !openings { UnclosedLater(text, start, start + 1); }
        AppendTwice(spans, [Span(start, start + 1)], Reference(text, punctuation, start + 1));
        spans := spans + [Span(start, start + 1)];
        lastIndex := start + 1;
      }
    }
  }

  /** Spans lie in order, apart from each other, inside the text from `from` on. */
  ghost predicate Ordered(spans: seq<Span>, from: nat, limit: nat) {
    && (forall i :: 0 <= i < |spans| ==> from <= spans[i].start < spans[i].end <= limit)
    && (forall i, j :: 0 <= i < j < |spans| ==> spans[i].end <= spans[j].start)
  }

  lemma {:induction false} ReferenceOrdered(text: string, punctuation: bool, from: nat)
    requires from <= |text|
    ensures Ordered(Reference(text, punctuation, from), from, |text|)
    decreases |text| - from
  {
    if from < |text| {
      if text[from] == '<' && IndexOf(text, '>', from + 1) < |text| {
        ReferenceOrdered(text, punctuation, IndexOf(text, '>', from + 1) + 1);
      } else {
        ReferenceOrdered(text, punctuation, from + 1);
      }
    }
  }

  /** Leftmost removal: drop each "<" up to its next ">", keep everything else. */
  function Stripped(text: string): (r: string)
    decreases |text|
  {
    if text == "" then ""
    else if text[0] == '<' && IndexOf(text, '>', 1) < |text| then Stripped(text[IndexOf(text, '>', 1) + 1..])
    else [text[0]] + Stripped(text[1..])
  }

  lemma {:induction false} IndexOfShift(text: string, c: char, cut: nat, from: nat)
    requires cut <= from <= |text|
    ensures IndexOf(text[cut..], c, from - cut) + cut == IndexOf(text, c, from)
    decreases |text| - from
  {
    if from < |text| && text[from] != c { IndexOfShift(text, c, cut, from + 1); }
  }

  /** The text between removed spans, from `cursor` on. */
  function Kept(text: string, spans: seq<Span>, cursor: nat): string
    requires cursor <= |text|
    requires forall i :: 0 <= i < |spans| ==> spans[i].start <= spans[i].end <= |text|
    decreases |spans|
  {
    if spans == [] then text[cursor..]
    else if cursor <= spans[0].start then text[cursor..spans[0].start] + Kept(text, spans[1..], spans[0].end)
    else Kept(text, spans[1..], spans[0].end)
  }

  lemma KeptFirst(text: string, spans: seq<Span>, from: nat)
    requires from < |text| && Ordered(spans, from + 1, |text|)
    ensures Kept(text, spans, from) == [text[from]] + Kept(text, spans, from + 1)
  {
    if spans == [] {
      assert text[from..] == [text[from]] + text[from + 1..];
    } else {
      var first, later := text[from + 1..spans[0].start], Kept(text, spans[1..], spans[0].end);
      assert text[from..spans[0].start] == [text[from]] + first;
      assert [text[from]] + (first + later) == ([text[from]] + first) + later;
    }
  }

  lemma KeptAfter(text: string, from: nat, end: nat, rest: seq<Span>)
    requires from < end <= |text| && Ordered([Span(from, end)] + rest, from, |text|) && Ordered(rest, end, |text|)
    ensures Kept(text, [Span(from, end)] + rest, from) == Kept(text, rest, end)
  {
    assert ([Span(from, end)] + rest)[1..] == rest;
  }

  /** A closed "<" at the cut is dropped, anything else is kept. */
  lemma StrippedAt(text: string, from: nat)
    requires from < |text|
    ensures var closing := IndexOf(text, '>', from + 1);
      Stripped(text[from..]) == if text[from] == '<' && closing < |text| then Stripped(text[closing + 1..])
        else [text[from]] + Stripped(text[from + 1..])
  {
    IndexOfShift(text, '>', from, from + 1);
    var tail, closing := text[from..], IndexOf(text, '>', from + 1);
    assert tail[1..] == text[from + 1..];
    if closing < |text| { assert tail[closing - from + 1..] == text[closing + 1..]; }
  }

  lemma ReferenceAt(text: string, from: nat)
    requires from < |text|
    ensures var closing := IndexOf(text, '>', from + 1);
      Reference(text, false, from) == if text[from] == '<' && closing < |text|
        then [Span(from, closing + 1)] + Reference(text, false, closing + 1) else Reference(text, false, from + 1)
  {
  }

  lemma {:induction false} KeptIsStripped(text: string, from: nat)
    requires from <= |text|
    ensures Ordered(Reference(text, false, from), from, |text|)
    ensures Kept(text, Reference(text, false, from), from) == Stripped(text[from..])
    decreases |text| - from
  {
    ReferenceOrdered(text, false, from);
    if from < |text| {
      var closing := IndexOf(text, '>', from + 1);
      if text[from] == '<' && closing < |text| {
        KeptIsStripped(text, closing + 1);
        DroppedFirst(text, from);
      } else {
        KeptIsStripped(text, from + 1);
        KeptNext(text, from);
      }
    } else {
      NothingKept(text);
    }
  }

  lemma NothingKept(text: string)
    ensures Kept(text, Reference(text, false, |text|), |text|) == Stripped(text[|text|..])
  {
    assert text[|text|..] == "" && Reference(text, false, |text|) == [];
  }

  lemma DroppedFirst(text: string, from: nat)
    requires from < |text| && text[from] == '<' && IndexOf(text, '>', from + 1) < |text|
    requires Ordered(Reference(text, false, from), from, |text|)
    requires var next := IndexOf(text, '>', from + 1) + 1;
      Ordered(Reference(text, false, next), next, |text|)
      && Kept(text, Reference(text, false, next), next) == Stripped(text[next..])
    ensures Kept(text, Reference(text, false, from), from) == Stripped(text[from..])
  {
    var next := IndexOf(text, '>', from + 1) + 1;
    StrippedAt(text, from);
    ReferenceAt(text, from);
    KeptAfter(text, from, next, Reference(text, false, next));
  }

  lemma KeptNext(text: string, from: nat)
    requires from < |text| && !(text[from] == '<' && IndexOf(text, '>', from + 1) < |text|)
    requires Ordered(Reference(text, false, from + 1), from + 1, |text|)
    requires Kept(text, Reference(text, false, from + 1), from + 1) == Stripped(text[from + 1..])
    ensures Ordered(Reference(text, false, from), from + 1, |text|)
    ensures Kept(text, Reference(text, false, from), from) == Stripped(text[from..])
  {
    StrippedAt(text, from);
    ReferenceAt(text, from);
    KeptFirst(text, Reference(text, false, from + 1), from);
  }

  /** The strip: the text outside the spans, which is the leftmost removal. */
  method StripPrivacyHtml(text: string) returns (result: string)
    ensures result == Stripped(text)
  {
    var spans := PrivacyMarkupSpans(text, false);
    ReferenceOrdered(text, false, 0);
    KeptIsStripped(text, 0);
    assert text[0..] == text;
    result := "";
    var cursor := 0;
    for i := 0 to |spans|
      invariant 0 <= cursor <= |text|
      invariant i < |spans| ==> cursor <= spans[i].start
      invariant result + Kept(text, spans[i..], cursor) == Stripped(text)
    {
      assert spans[i..][1..] == spans[i + 1..];
      result := result + text[cursor..spans[i].start];
      cursor := spans[i].end;
    }
    result := result + text[cursor..];
  }

  /** No "<" of the text is closed by a later ">". */
  ghost predicate NothingClosable(text: string) {
    forall i, j :: 0 <= i < j < |text| && text[i] == '<' ==> text[j] != '>'
  }

  lemma {:induction false} StrippedKeepsOnly(text: string, c: char)
    requires c !in text
    ensures c !in Stripped(text)
    decreases |text|
  {
    if text != "" {
      var closing := IndexOf(text, '>', 1);
      if text[0] == '<' && closing < |text| {
        assert forall x :: x in text[closing + 1..] ==> x in text;
        StrippedKeepsOnly(text[closing + 1..], c);
      } else {
        assert forall x :: x in text[1..] ==> x in text;
        StrippedKeepsOnly(text[1..], c);
      }
    }
  }

  lemma {:induction false} StrippedHasNothingClosable(text: string)
    ensures NothingClosable(Stripped(text))
    decreases |text|
  {
    if text != "" {
      var closing := IndexOf(text, '>', 1);
      if text[0] == '<' && closing < |text| {
        StrippedHasNothingClosable(text[closing + 1..]);
      } else {
        StrippedHasNothingClosable(text[1..]);
        if text[0] == '<' {
          assert forall k :: 0 <= k < |text[1..]| ==> text[1..][k] == text[k + 1] != '>';
          StrippedKeepsOnly(text[1..], '>');
        }
      }
    }
  }

  lemma {:induction false} StripChangesNothingIff(text: string)
    ensures Stripped(text) == text <==> NothingClosable(text)
    decreases |text|
  {
    StrippedHasNothingClosable(text);
    if NothingClosable(text) { StripKeeps(text); }
  }

  lemma {:induction false} StripKeeps(text: string)
    requires NothingClosable(text)
    ensures Stripped(text) == text
    decreases |text|
  {
    if text != "" {
      var closing := IndexOf(text, '>', 1);
      assert closing < |text| ==> text[closing] == '>';
      assert NothingClosable(text[1..]) by {
        forall i, j | 0 <= i < j < |text[1..]| && text[1..][i] == '<' ensures text[1..][j] != '>' {
          assert text[i + 1] == '<' && text[j + 1] == text[1..][j];
        }
      }
      StripKeeps(text[1..]);
    }
  }

  lemma StripIsIdempotent(text: string)
    ensures Stripped(Stripped(text)) == Stripped(text)
  {
    StrippedHasNothingClosable(text);
    StripChangesNothingIff(Stripped(text));
  }
}
