/** The names under which the transcript store keeps a file whose own name is taken. */
module StoreNames {
  function LastDot(name: string): (i: int)
    ensures -1 <= i < |name|
    ensures i >= 0 ==> name[i] == '.'
    ensures forall k :: i < k < |name| ==> name[k] != '.'
  {
    if name == "" then -1
    else if name[|name| - 1] == '.' then |name| - 1
    else LastDot(name[..|name| - 1])
  }

  /** Where `path.extname` starts: the last dot, unless it leads the name or there is none. */
  function ExtensionAt(name: string): (i: nat)
    ensures i <= |name|
  {
    if LastDot(name) > 0 then LastDot(name) else |name|
  }

  predicate Allowed(c: char) { 'a' <= c <= 'z' || 'A' <= c <= 'Z' || '0' <= c <= '9' || c == '-' }

  /** Every run of other characters becomes one dash. */
  function Dashed(s: string, inRun: bool): (r: string)
    ensures forall c :: c in r ==> Allowed(c)
  {
    if s == "" then ""
    else if Allowed(s[0]) then [s[0]] + Dashed(s[1..], false)
    else if inRun then Dashed(s[1..], true)
    else "-" + Dashed(s[1..], true)
  }

  /** The label of a root, from the name of the directory that holds it. */
  function Label(home: string): (r: string)
    ensures r != "" && forall c :: c in r ==> Allowed(c)
  {
    var dashed := Dashed(home, false);
    if dashed == "" then "root" else dashed
  }

  /** Allowed characters stay as they are. */
  lemma {:induction false} AllowedStay(run: string, rest: string, inRun: bool)
    requires run != "" && forall c :: c in run ==> Allowed(c)
    ensures Dashed(run + rest, inRun) == run + Dashed(rest, false)
    decreases |run|
  {
    assert (run + rest)[1..] == run[1..] + rest;
    if |run| > 1 { AllowedStay(run[1..], rest, false); }
    assert |run| == 1 ==> run[1..] + rest == rest;
  }

  /** And a run of others, up to an allowed one or the end, is one dash. */
  lemma OthersDash(run: string, rest: string)
    requires run != "" && (forall c :: c in run ==> !Allowed(c)) && (rest == "" || Allowed(rest[0]))
    ensures Dashed(run + rest, false) == "-" + Dashed(rest, false)
  {
    assert (run + rest)[1..] == run[1..] + rest;
    RunSwallowed(run[1..], rest);
  }

  lemma {:induction false} RunSwallowed(run: string, rest: string)
    requires (forall c :: c in run ==> !Allowed(c)) && (rest == "" || Allowed(rest[0]))
    ensures Dashed(run + rest, true) == Dashed(rest, false)
    decreases |run|
  {
    if run == "" {
      assert run + rest == rest;
    } else {
      assert (run + rest)[1..] == run[1..] + rest;
      RunSwallowed(run[1..], rest);
    }
  }

  /** A home named by allowed characters has its name for a label, and one without a name the label "root". */
  lemma LabelIs(home: string)
    requires forall c :: c in home ==> 'a' <= c <= 'z' || 'A' <= c <= 'Z' || '0' <= c <= '9' || c == '-'
    ensures Label(home) == if home == "" then "root" else home
  {
    if home != "" {
      AllowedStay(home, "", false);
      assert home + "" == home;
    }
  }

  type Tag = t: string | '.' !in t witness "root"

  function Mark(tag: Tag): string { ".from-" + tag }

  function Suffixed(name: string, tag: Tag): (r: string)
    ensures r != ""
  {
    name[..ExtensionAt(name)] + Mark(tag) + name[ExtensionAt(name)..]
  }

  /** The mark goes before the extension. */
  lemma SuffixedShape(base: string, extension: string, tag: Tag)
    requires '.' !in extension && base != ""
    ensures Suffixed(base + "." + extension, tag) == base + Mark(tag) + "." + extension
  {
    var name := base + "." + extension;
    LastDotIs(name, |base|);
    assert name[..|base|] == base && name[|base|..] == "." + extension;
  }

  /** A name without a dot, or whose only dot leads it, has no extension. */
  lemma SuffixedBare(name: string, tag: Tag)
    requires name == "" || '.' !in name[1..]
    ensures Suffixed(name, tag) == name + Mark(tag)
  {
    if name != "" { NoLaterDot(name); }
    assert name[..|name|] == name && name[|name|..] == "";
  }

  lemma {:induction false} NoLaterDot(name: string)
    requires name != "" && '.' !in name[1..]
    ensures LastDot(name) <= 0
    decreases |name|
  {
    if |name| > 1 {
      assert name[1..][|name| - 2] == name[|name| - 1];
      assert forall c :: c in name[..|name| - 1][1..] ==> c in name[1..];
      NoLaterDot(name[..|name| - 1]);
    }
  }

  lemma LastDotIs(name: string, i: nat)
    requires i < |name| && name[i] == '.' && forall k :: i < k < |name| ==> name[k] != '.'
    ensures LastDot(name) == i
  {
  }

  lemma MarkDot(tag: Tag)
    ensures Mark(tag)[0] == '.' && forall k :: 0 < k < |Mark(tag)| ==> Mark(tag)[k] != '.'
  {
    forall k | 0 < k < |Mark(tag)| ensures Mark(tag)[k] != '.' {
      if k >= 6 { assert Mark(tag)[k] == tag[k - 6]; }
    }
  }

  /** Where the last dot of a suffixed name is: at the extension's new place, or at the mark. */
  lemma SuffixedDot(name: string, tag: Tag)
    requires name != ""
    ensures LastDot(Suffixed(name, tag)) == ExtensionAt(name) + if ExtensionAt(name) < |name| then |Mark(tag)| else 0
  {
    var at, mark := ExtensionAt(name), Mark(tag);
    var s := Suffixed(name, tag);
    MarkDot(tag);
    forall k | at <= k < |s| ensures s[k] == if k < at + |mark| then mark[k - at] else name[k - |mark|] {
    }
    LastDotIs(s, if at < |name| then at + |mark| else at);
  }

  lemma CutEqual(a: string, x: string, b: string, y: string)
    requires a + x == b + y && |a| == |b|
    ensures a == b && x == y
  {
    assert (a + x)[..|a|] == (b + y)[..|b|] && (a + x)[|a|..] == (b + y)[|b|..];
  }

  lemma SameMark(a: string, m: Tag, b: string, n: Tag)
    requires a + Mark(m) == b + Mark(n)
    ensures a == b && m == n
  {
    MarkDot(m);
    MarkDot(n);
    var s := a + Mark(m);
    assert s[|a|] == '.' && s[|b|] == '.';
    LastDotIs(s, |a|);
    LastDotIs(s, |b|);
    CutEqual(a, Mark(m), b, Mark(n));
    CutEqual(".from-", m, ".from-", n);
  }

  /** A suffixed name tells the original name and the label. */
  lemma SuffixedInjective(a: string, m: Tag, b: string, n: Tag)
    requires a != "" && b != "" && Suffixed(a, m) == Suffixed(b, n)
    ensures a == b && m == n
  {
    SuffixedDot(a, m);
    SuffixedDot(b, n);
    SuffixedCut(a, m);
    SuffixedCut(b, n);
    var i, j := ExtensionAt(a), ExtensionAt(b);
    var s := Suffixed(a, m);
    if (i < |a|) == (j < |b|) {
      CutEqual(a[..i] + Mark(m), a[i..], b[..j] + Mark(n), b[j..]);
      SameMark(a[..i], m, b[..j], n);
      assert a == a[..i] + a[i..] && b == b[..j] + b[j..];
    } else if i < |a| {
      MixedApart(a, m, b, n);
    } else {
      MixedApart(b, n, a, m);
    }
  }

  lemma SuffixedCut(a: string, m: Tag)
    ensures Suffixed(a, m) == (a[..ExtensionAt(a)] + Mark(m)) + a[ExtensionAt(a)..]
    ensures ExtensionAt(a) == |a| ==> Suffixed(a, m) == a + Mark(m)
  {
  }

  lemma MixedApart(a: string, m: Tag, b: string, n: Tag)
    requires a != "" && b != "" && ExtensionAt(a) < |a| && ExtensionAt(b) == |b|
    ensures Suffixed(a, m) != Suffixed(b, n)
  {
    SuffixedDot(a, m);
    SuffixedDot(b, n);
    SuffixedCut(a, m);
    SuffixedCut(b, n);
    var i := ExtensionAt(a);
    var head := a[..i] + Mark(m);
    MarkDot(m);
    LastDotIs(head, i);
    if Suffixed(a, m) == Suffixed(b, n) { CutEqual(head, a[i..], b, Mark(n)); }
  }

  predicate EndsWith(s: string, end: string) { |s| >= |end| && s[|s| - |end|..] == end }

  predicate Transcript(name: string) { EndsWith(name, ".jsonl") }

  const MEMORY := "MEMORY.md"

  lemma TranscriptDot(s: string)
    requires Transcript(s)
    ensures LastDot(s) == |s| - 6 && s[|s| - 5] == 'j'
  {
    var end := s[|s| - 6..];
    assert end == ".jsonl" && forall k :: 0 <= k < 6 ==> s[|s| - 6 + k] == end[k];
    LastDotIs(s, |s| - 6);
  }

  lemma MemoryDot()
    ensures LastDot(MEMORY) == 6
  {
    LastDotIs(MEMORY, 6);
  }

  /** A name that is no transcript has no transcript name when suffixed, and is not the memory file's. */
  lemma SuffixedKind(name: string, tag: Tag)
    requires name != "" && !Transcript(name)
    ensures !Transcript(Suffixed(name, tag)) && Suffixed(name, tag) != MEMORY
  {
    var s, at := Suffixed(name, tag), ExtensionAt(name);
    SuffixedDot(name, tag);
    MarkDot(tag);
    if Transcript(s) { TranscriptDot(s); }
    MemoryDot();
    assert s[at] == Mark(tag)[0] && s[at + 1] == Mark(tag)[1] == 'f';
    assert s[at + |Mark(tag)|..] == name[at..];
  }

  /** Two account homes can share a label; their roots then want the same suffixed names. */
  lemma LabelsCanMeet()
    ensures Label("a.b") == Label("a-b")
  {
    assert Dashed("b", true) == Dashed("b", false) == "b";
    assert "a.b"[1..] == ".b" && ".b"[1..] == "b" && "a-b"[1..] == "-b" && "-b"[1..] == "b";
  }
}
