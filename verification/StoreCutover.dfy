/** The whole cutover: a scan that refuses transcript collisions, then every root merged in turn. */
module StoreCutover {
  import opened Common
  import opened StoreLines
  import opened StoreNames
  import opened StoreMerge

  datatype Root = Root(tag: Tag, entries: Entries)

  /** The project directories of a root; stray top-level files stay behind. */
  function Projects(r: Root): Tree {
    Folder(map n | n in r.entries && r.entries[n].Folder? :: r.entries[n])
  }

  /** The relative paths of a tree's files. */
  function Files(t: Tree): set<Path> {
    match t
    case File(_) => {[]}
    case Folder(entries) => set n, q | n in entries && q in Files(entries[n]) :: [n] + q
  }

  lemma {:induction false} FilesAre(t: Tree, p: Path)
    ensures p in Files(t) <==> IsFile(t, p)
    decreases |p|
  {
    if t.Folder? {
      if p != [] && p[0] in t.entries {
        FilesAre(t.entries[p[0]], p[1..]);
        assert p == [p[0]] + p[1..];
      }
      forall n, q | n in t.entries && q in Files(t.entries[n]) && p == [n] + q
        ensures p != [] && p[0] == n && p[1..] == q
      {
      }
    }
  }

  /** The same relative path is a file in both trees and names a transcript. */
  ghost predicate Twice(a: Tree, b: Tree) {
    exists p: Path :: p != [] && Transcript(Last(p)) && IsFile(a, p) && IsFile(b, p)
  }

  ghost predicate NoTranscriptTwice(roots: seq<Root>) {
    forall i, j :: 0 <= i < j < |roots| ==> !Twice(Folder(roots[i].entries), Folder(roots[j].entries))
  }

  /** The paths of a root that an earlier one holds: those that name a transcript, or the others. */
  ghost function Held(roots: seq<Root>, i: nat, transcripts: bool): set<Path>
    requires i < |roots|
  {
    set p | p in Files(Folder(roots[i].entries)) && p != [] && Transcript(Last(p)) == transcripts
      && exists j :: 0 <= j < i && IsFile(Folder(roots[j].entries), p)
  }

  ghost function HeldIn(roots: seq<Root>, n: nat, transcripts: bool): nat
    requires n <= |roots|
  {
    if n == 0 then 0 else HeldIn(roots, n - 1, transcripts) + |Held(roots, n - 1, transcripts)|
  }

  /** The plan's scan: counts the paths of each root that an earlier root holds, by whether they name a transcript. */
  method ScanRoots(roots: seq<Root>) returns (collisions: nat, merges: nat)
    ensures collisions == 0 <==> NoTranscriptTwice(roots)
    ensures collisions == HeldIn(roots, |roots|, true) && merges == HeldIn(roots, |roots|, false)
  {
    var seen: set<Path> := {};
    collisions, merges := 0, 0;
    for i := 0 to |roots|
      invariant SeenIn(roots, i, seen)
      invariant collisions == HeldIn(roots, i, true) && merges == HeldIn(roots, i, false)
    {
      var c, m := ScanRoot(roots[i], seen);
      HeldBySeen(roots, i, seen, true);
      HeldBySeen(roots, i, seen, false);
      collisions, merges := collisions + c, merges + m;
      SeenOn(roots, i, seen);
      seen := seen + Files(Folder(roots[i].entries));
    }
    assert roots[..|roots|] == roots;
    NoneHeld(roots, |roots|);
  }

  /** The files of the first roots. */
  ghost predicate SeenIn(roots: seq<Root>, n: nat, seen: set<Path>)
    requires n <= |roots|
  {
    forall p :: p in seen <==> exists j :: 0 <= j < n && IsFile(Folder(roots[j].entries), p)
  }

  lemma SeenOn(roots: seq<Root>, i: nat, seen: set<Path>)
    requires i < |roots| && SeenIn(roots, i, seen)
    ensures SeenIn(roots, i + 1, seen + Files(Folder(roots[i].entries)))
  {
    forall p: Path ensures p in Files(Folder(roots[i].entries)) <==> IsFile(Folder(roots[i].entries), p) {
      FilesAre(Folder(roots[i].entries), p);
    }
  }

  lemma HeldBySeen(roots: seq<Root>, i: nat, seen: set<Path>, transcripts: bool)
    requires i < |roots|
    requires SeenIn(roots, i, seen)
    ensures Held(roots, i, transcripts) == Among(Files(Folder(roots[i].entries)), seen, transcripts)
  {
  }

  lemma {:induction false} NoneHeld(roots: seq<Root>, n: nat)
    requires n <= |roots|
    ensures HeldIn(roots, n, true) == 0 <==> NoTranscriptTwice(roots[..n])
  {
    if n > 0 {
      var now, was := roots[..n], roots[..n - 1];
      NoneHeld(roots, n - 1);
      assert now[n - 1] == roots[n - 1] && forall i :: 0 <= i < n - 1 ==> now[i] == was[i] == roots[i];
      NoneHeldAt(roots, n - 1);
    }
  }

  lemma NoneHeldAt(roots: seq<Root>, n: nat)
    requires n < |roots|
    ensures Held(roots, n, true) == {}
      <==> forall j :: 0 <= j < n ==> !Twice(Folder(roots[j].entries), Folder(roots[n].entries))
  {
    var last, held := Folder(roots[n].entries), Held(roots, n, true);
    forall j | 0 <= j < n && Twice(Folder(roots[j].entries), last) ensures held != {} {
      var p: Path :| p != [] && Transcript(Last(p)) && IsFile(Folder(roots[j].entries), p) && IsFile(last, p);
      FilesAre(last, p);
      assert p in held;
    }
    if held != {} {
      var p :| p in held;
      var j :| 0 <= j < n && IsFile(Folder(roots[j].entries), p);
      FilesAre(last, p);
      assert Twice(Folder(roots[j].entries), last);
    }
  }

  /** Which of these paths were seen before, and do or do not name a transcript. */
  function Among(these: set<Path>, seen: set<Path>, transcripts: bool): set<Path> {
    set p | p in these && p != [] && Transcript(Last(p)) == transcripts && p in seen
  }

  lemma OneMore(these: set<Path>, p: Path, seen: set<Path>, transcripts: bool)
    requires p !in these && p != []
    ensures |Among(these + {p}, seen, transcripts)|
      == |Among(these, seen, transcripts)| + if p in seen && Transcript(Last(p)) == transcripts then 1 else 0
  {
    assert Among(these + {p}, seen, transcripts) == Among(these, seen, transcripts)
      + if p in seen && Transcript(Last(p)) == transcripts then {p} else {};
  }

  method ScanRoot(root: Root, seen: set<Path>) returns (collisions: nat, merges: nat)
    ensures collisions == |Among(Files(Folder(root.entries)), seen, true)|
    ensures merges == |Among(Files(Folder(root.entries)), seen, false)|
  {
    var todo := Files(Folder(root.entries));
    collisions, merges := 0, 0;
    ghost var done: set<Path> := {};
    while todo != {}
      invariant done + todo == Files(Folder(root.entries)) && done !! todo
      invariant collisions == |Among(done, seen, true)| && merges == |Among(done, seen, false)|
    {
      var p :| p in todo;
      OneMore(done, p, seen, true);
      OneMore(done, p, seen, false);
      if p in seen {
        if Transcript(Last(p)) { collisions := collisions + 1; } else { merges := merges + 1; }
      }
      todo, done := todo - {p}, done + {p};
    }
    assert done == Files(Folder(root.entries));
  }

  /** No path of the tree ends in a name suffixed with this tag. */
  ghost predicate Unsuffixed(t: Tree, tag: Tag) {
    forall p: Path, n: Name :: p != [] && Exists(t, p) ==> Last(p) != Suffixed(n, tag)
  }

  lemma {:induction false} FreshWhen(source: Tree, target: Tree, tag: Tag)
    requires Unsuffixed(source, tag) && Unsuffixed(target, tag)
    ensures Fresh(source, target, tag)
    decreases source
  {
    if source.Folder? && target.Folder? {
      forall n | n in source.entries && n in target.entries
        ensures source.entries[n].Folder? ==> Fresh(source.entries[n], target.entries[n], tag)
        ensures Suffixed(n, tag) !in source.entries && Suffixed(n, tag) !in target.entries
      {
        UnsuffixedEntry(source.entries, tag, n);
        UnsuffixedEntry(target.entries, tag, n);
        if source.entries[n].Folder? { FreshWhen(source.entries[n], target.entries[n], tag); }
      }
    }
  }

  lemma UnsuffixedEntry(t: Entries, tag: Tag, n: Name)
    requires Unsuffixed(Folder(t), tag) && n in t
    ensures Unsuffixed(t[n], tag) && Suffixed(n, tag) !in t
  {
    forall p: Path, m: Name | p != [] && Exists(t[n], p) ensures Last(p) != Suffixed(m, tag) {
      LiftedSub(n, t, p);
      assert Last([n] + p) == Last(p);
    }
    var aside: Name := Suffixed(n, tag);
    assert [aside][1..] == [] && Last([aside]) == aside;
    assert aside in t ==> Exists(Folder(t), [aside]);
  }

  /** A root's file is in the store: at its path, or under its suffixed name. */
  ghost predicate Stored(store: Tree, p: Path, content: string, tag: Tag) {
    Holds(store, p, content) || (p != [] && Holds(store, Aside(p, tag), content))
  }

  ghost predicate AllStored(r: Root, store: Tree) {
    forall p: Path, c :: Has(Projects(r), p, c) ==> Stored(store, p, c, r.tag)
  }

  /** Where a path of the store comes from. */
  ghost predicate Source(r: Root, p: Path, file: bool) {
    Kind(Projects(r), p, file) || (file && exists q: Path :: StepsAside(Projects(r), q, p, r.tag))
  }

  ghost predicate Sourced(roots: seq<Root>, store: Tree) {
    forall p: Path :: p != [] && Exists(store, p) ==> exists r :: r in roots && Source(r, p, IsFile(store, p))
  }

  ghost predicate DistinctTags(roots: seq<Root>) {
    forall i, j :: 0 <= i < j < |roots| ==> roots[i].tag != roots[j].tag
  }

  /** No root already holds a name that some root's tag would produce. */
  ghost predicate FreshNames(roots: seq<Root>) {
    forall r, s :: r in roots && s in roots ==> Unsuffixed(Projects(r), s.tag)
  }

  ghost predicate SameKinds(roots: seq<Root>) {
    forall r, s :: r in roots && s in roots ==> !Clashes(Projects(r), Projects(s))
  }

  lemma HoldsThrough(before: Tree, after: Tree, p: Path, c: string)
    requires AllHeld(before, after) && Holds(before, p, c)
    ensures Holds(after, p, c)
  {
    var now := Sub(before, p).value.content;
    assert Has(before, p, now);
    assert Holds(after, p, now);
  }

  lemma StoredThrough(r: Root, before: Tree, after: Tree)
    requires AllHeld(before, after) && AllStored(r, before)
    ensures AllStored(r, after)
  {
    forall p: Path, c | Has(Projects(r), p, c) ensures Stored(after, p, c, r.tag) {
      HoldsThrough(before, after, if Holds(before, p, c) then p else Aside(p, r.tag), c);
    }
  }

  /** What earlier roots left in the store never has a name the next root's tag would produce. */
  lemma StoreUnsuffixed(done: seq<Root>, next: Root, store: Tree)
    requires Sourced(done, store) && forall r :: r in done ==> r.tag != next.tag && Unsuffixed(Projects(r), next.tag)
    ensures Unsuffixed(store, next.tag)
  {
    forall p: Path, n: Name | p != [] && Exists(store, p) ensures Last(p) != Suffixed(n, next.tag) {
      var r :| r in done && Source(r, p, IsFile(store, p));
      if q: Path :| StepsAside(Projects(r), q, p, r.tag) {
        if Suffixed(Last(q), r.tag) == Suffixed(n, next.tag) { SuffixedInjective(Last(q), r.tag, n, next.tag); }
      }
    }
  }

  lemma SourcedStep(done: seq<Root>, next: Root, before: Tree, after: Tree)
    requires Sourced(done, before) && NothingNew(Projects(next), Some(before), after, next.tag)
    ensures Sourced(done + [next], after)
  {
    forall p: Path | p != [] && Exists(after, p)
      ensures exists r :: r in done + [next] && Source(r, p, IsFile(after, p))
    {
      if Kind(before, p, IsFile(after, p)) {
        var r :| r in done && Source(r, p, IsFile(before, p));
        assert r in done + [next];
      } else {
        assert Source(next, p, IsFile(after, p)) && next in done + [next];
      }
    }
  }

  /** A clean scan over roots that agree on files and folders leaves nothing for a merge to stop at. */
  lemma NothingStops(done: seq<Root>, next: Root, store: Tree)
    requires Sourced(done, store) && (store.Folder?)
    requires forall r :: r in done ==> !Clashes(Projects(next), Projects(r)) && !Twice(Projects(r), Projects(next))
    requires Unsuffixed(Projects(next), next.tag) && forall r :: r in done ==> Unsuffixed(Projects(next), r.tag)
    ensures !Collides(Projects(next), store) && !Clashes(Projects(next), store)
  {
    forall p: Path | p != [] && Exists(Projects(next), p) && Exists(store, p)
      ensures !CollidesAt(Projects(next), store, p) && !ClashesAt(Projects(next), store, p)
    {
      var r :| r in done && Source(r, p, IsFile(store, p));
      forall q: Path ensures !StepsAside(Projects(r), q, p, r.tag) {
        assert q != [] ==> Last(p) != Suffixed(Last(q), r.tag);
      }
      assert !ClashesAt(Projects(next), Projects(r), p);
    }
  }

  lemma ProjectFiles(r: Root, p: Path)
    ensures IsFile(Projects(r), p) ==> IsFile(Folder(r.entries), p)
  {
  }

  /** How merging roots one after another ends: how many were merged, and what stays at home of the one that stopped. */
  datatype Roots = Roots(o: Outcome, at: nat, rest: Tree, store: Tree)

  function MergeAll(roots: seq<Root>, store: Tree, listing: Listing): Roots
    requires Lists(listing)
  {
    if roots == [] then Roots(Merged, 0, Folder(map[]), store)
    else
      var m := MergeOf(Projects(roots[0]), Some(store), roots[0].tag, listing);
      if !m.o.Merged? then Roots(m.o, 0, m.rest, m.store)
      else
        var more := MergeAll(roots[1..], m.store, listing);
        more.(at := more.at + 1)
  }

  /** Roots with labels of their own, and no name that one of the labels would produce. */
  ghost predicate Apart(roots: seq<Root>) { DistinctTags(roots) && FreshNames(roots) }

  /** Merges every root into an empty store, stopping at the first that cannot be merged. */
  method MergeRoots(roots: seq<Root>, listing: Listing) returns (o: Outcome, at: nat, rest: Tree, store: Tree)
    requires Lists(listing)
    ensures Roots(o, at, rest, store) == MergeAll(roots, Folder(map[]), listing)
    ensures at <= |roots| && (o.Merged? <==> at == |roots|)
    ensures Apart(roots) ==> forall i :: 0 <= i < at ==> AllStored(roots[i], store)
    ensures Apart(roots) && at < |roots| ==> AllSafe(Projects(roots[at]), rest, store, roots[at].tag)
    ensures Apart(roots) && NoTranscriptTwice(roots) && SameKinds(roots) ==> o.Merged?
  {
    store, rest, o := Folder(map[]), Folder(map[]), Merged;
    ghost var all := MergeAll(roots, store, listing);
    for i := 0 to |roots|
      invariant all == MergeAll(roots[i..], store, listing).(at := i + MergeAll(roots[i..], store, listing).at)
      invariant Apart(roots) ==> Progress(roots, i, store)
    {
      var next := roots[i];
      ghost var before := store;
      assert roots[i..][0] == next && roots[i..][1..] == roots[i + 1..];
      o, rest, store := MergeTree(Projects(next), Some(store), next.tag, listing);
      if Apart(roots) { RootKeeps(roots, i, before, Merge(o, rest, store), listing); }
      if !o.Merged? { return o, i, rest, store; }
    }
    o, at, rest := Merged, |roots|, Folder(map[]);
  }

  /** So many roots are merged, all of each is stored, and everything in the store comes from them. */
  ghost predicate Progress(roots: seq<Root>, i: nat, store: Tree)
    requires i <= |roots|
  {
    store.Folder? && Sourced(roots[..i], store) && forall j :: 0 <= j < i ==> AllStored(roots[j], store)
  }

  lemma RootKeeps(roots: seq<Root>, i: nat, before: Tree, m: Merge, listing: Listing)
    requires Lists(listing) && Apart(roots) && i < |roots| && Progress(roots, i, before)
    requires m == MergeOf(Projects(roots[i]), Some(before), roots[i].tag, listing)
    ensures m.o.Merged? ==> Progress(roots, i + 1, m.store)
    ensures !m.o.Merged? ==> forall j :: 0 <= j < i ==> AllStored(roots[j], m.store)
    ensures !m.o.Merged? ==> AllSafe(Projects(roots[i]), m.rest, m.store, roots[i].tag)
    ensures NoTranscriptTwice(roots) && SameKinds(roots) ==> m.o.Merged?
  {
    var next := roots[i];
    StoreUnsuffixed(roots[..i], next, before);
    FreshWhen(Projects(next), before, next.tag);
    MergeOfKeeps(Projects(next), Some(before), next.tag, listing);
    forall j | 0 <= j < i ensures AllStored(roots[j], m.store) { StoredThrough(roots[j], before, m.store); }
    if m.o.Merged? {
      SourcedStep(roots[..i], next, before, m.store);
      assert roots[..i] + [next] == roots[..i + 1];
    } else if NoTranscriptTwice(roots) && SameKinds(roots) {
      CannotStop(roots, i, before);
    }
  }

  lemma CannotStop(roots: seq<Root>, i: nat, store: Tree)
    requires i < |roots| && store.Folder? && Sourced(roots[..i], store)
    requires FreshNames(roots) && NoTranscriptTwice(roots) && SameKinds(roots)
    ensures !Collides(Projects(roots[i]), store) && !Clashes(Projects(roots[i]), store)
  {
    forall r | r in roots[..i] ensures !Twice(Projects(r), Projects(roots[i])) {
      forall p: Path ensures IsFile(Projects(r), p) ==> IsFile(Folder(r.entries), p) { ProjectFiles(r, p); }
      forall p: Path ensures IsFile(Projects(roots[i]), p) ==> IsFile(Folder(roots[i].entries), p) {
        ProjectFiles(roots[i], p);
      }
    }
    NothingStops(roots[..i], roots[i], store);
  }

  /** The cutover: nothing is touched when the scan finds a collision. */
  method Cutover(roots: seq<Root>, listing: Listing) returns (refused: bool, o: Outcome, store: Tree)
    requires Lists(listing)
    ensures refused <==> !NoTranscriptTwice(roots)
    ensures refused ==> store == Folder(map[])
    ensures !refused ==> var all := MergeAll(roots, Folder(map[]), listing); o == all.o && store == all.store
    ensures Apart(roots) && !refused && SameKinds(roots) ==> o.Merged?
    ensures Apart(roots) && !refused && o.Merged? ==> forall r :: r in roots ==> AllStored(r, store)
  {
    var collisions, merges := ScanRoots(roots);
    if collisions > 0 { return true, Collision, Folder(map[]); }
    var at, rest;
    o, at, rest, store := MergeRoots(roots, listing);
    refused := false;
  }

  const PROJECT: Name := "p"

  /** A root with one project that holds one file. */
  function Single(tag: Tag, content: string): Root { Root(tag, map[PROJECT := Folder(map[NOTE := File(content)])]) }

  /** Three roots with one file each under one path, the last two from homes that share a label: the merge succeeds,
      and what the second held is nowhere in the store. */
  lemma SharedLabelRootsLose(listing: Listing)
    requires Lists(listing)
    ensures Label("a.b") == Label("a-b")
    ensures var roots := [Single("root", "1"), Single(Label("a.b"), "2"), Single(Label("a-b"), "3")];
      var r := MergeAll(roots, Folder(map[]), listing);
      r.o.Merged? && r.at == 3 && forall p: Path :: !Holds(r.store, p, "2")
  {
    LabelsCanMeet();
    ThreeRoots(listing, Label("a.b"));
  }

  lemma ThreeRoots(listing: Listing, tag: Tag)
    requires Lists(listing)
    ensures var r := MergeAll([Single("root", "1"), Single(tag, "2"), Single(tag, "3")], Folder(map[]), listing);
      r.o.Merged? && r.at == 3 && forall p: Path :: !Holds(r.store, p, "2")
  {
    var a, b, c := Single("root", "1"), Single(tag, "2"), Single(tag, "3");
    SuffixedKind(NOTE, tag);
    var first := FileInto(NOTE, "1", map[], "root").value;
    var second := FileInto(NOTE, "2", first, tag).value;
    var third := FileInto(NOTE, "3", second, tag).value;
    SharedLabelLoses(tag, first, second, third);
    FirstRoot(listing, a, "1");
    NextRoot(listing, b, "2", first, second);
    NextRoot(listing, c, "3", second, third);
    var s1, s2, s3 := Alone(PROJECT, Folder(first)), Alone(PROJECT, Folder(second)), Alone(PROJECT, Folder(third));
    assert MergeAll([], s3, listing) == Roots(Merged, 0, Folder(map[]), s3);
    assert [c][1..] == [] && MergeAll([c], s2, listing) == Roots(Merged, 1, Folder(map[]), s3);
    assert [b, c][1..] == [c] && MergeAll([b, c], s1, listing) == Roots(Merged, 2, Folder(map[]), s3);
    assert [a, b, c][1..] == [b, c];
    forall p: Path ensures !Holds(s3, p, "2") { HeldBelow(third, p); }
  }

  lemma OneName(listing: Listing, n: Name, t: Tree)
    requires Lists(listing)
    ensures listing(map[n := t]) == [n]
  {
    var names := listing(map[n := t]);
    assert Enumerated(names, map[n := t]) && n in names;
    assert |names| > 1 ==> names[0] != names[1];
    forall i | 0 <= i < |names| ensures names[i] == n { assert names[i] in names; }
  }

  lemma OneFile(listing: Listing, n: Name, content: string, into: Entries, after: Entries, tag: Tag)
    requires Lists(listing) && FileInto(n, content, into, tag) == Some(after)
    ensures MergeOf(Alone(n, File(content)), Some(Folder(into)), tag, listing)
      == Merge(Merged, Folder(map[]), Folder(after))
  {
    var source := Alone(n, File(content));
    OneName(listing, n, File(content));
    assert [n][1..] == [] && source.entries - {n} == map[];
    assert MergeEntries(source, [], map[], after, tag, listing) == Merge(Merged, Folder(map[]), Folder(after));
    assert MergeEntries(source, [n], source.entries, into, tag, listing)
      == MergeEntries(source, [], map[], after, tag, listing);
  }

  lemma OneFolder(listing: Listing, n: Name, t: Tree, into: Entries, x: Tree, tag: Tag)
    requires Lists(listing) && t.Folder? && MergeOf(t, At(into, n), tag, listing) == Merge(Merged, Folder(map[]), x)
    ensures MergeOf(Alone(n, t), Some(Folder(into)), tag, listing)
      == Merge(Merged, Folder(map[]), Folder(into[n := x]))
  {
    var source, after := Alone(n, t), into[n := x];
    OneName(listing, n, t);
    assert [n][1..] == [] && source.entries - {n} == map[];
    assert MergeEntries(source, [], map[], after, tag, listing) == Merge(Merged, Folder(map[]), Folder(after));
    assert MergeEntries(source, [n], source.entries, into, tag, listing)
      == MergeEntries(source, [], map[], after, tag, listing);
  }

  lemma OneProject(tag: Tag, content: string)
    ensures Projects(Single(tag, content)) == Alone(PROJECT, Alone(NOTE, File(content)))
  {
    assert Single(tag, content).entries[PROJECT].Folder?;
  }

  lemma FirstRoot(listing: Listing, r: Root, content: string)
    requires Lists(listing) && r == Single(r.tag, content)
    ensures MergeOf(Projects(r), Some(Folder(map[])), r.tag, listing)
      == Merge(Merged, Folder(map[]), Alone(PROJECT, Alone(NOTE, File(content))))
  {
    OneProject(r.tag, content);
    OneFolder(listing, PROJECT, Alone(NOTE, File(content)), map[], Alone(NOTE, File(content)), r.tag);
  }

  lemma NextRoot(listing: Listing, r: Root, content: string, into: Entries, after: Entries)
    requires Lists(listing) && r == Single(r.tag, content) && FileInto(NOTE, content, into, r.tag) == Some(after)
    ensures MergeOf(Projects(r), Some(Alone(PROJECT, Folder(into))), r.tag, listing)
      == Merge(Merged, Folder(map[]), Alone(PROJECT, Folder(after)))
  {
    OneProject(r.tag, content);
    OneFile(listing, NOTE, content, into, after, r.tag);
    OneFolder(listing, PROJECT, Alone(NOTE, File(content)), map[PROJECT := Folder(into)], Folder(after), r.tag);
    assert map[PROJECT := Folder(into)][PROJECT := Folder(after)] == map[PROJECT := Folder(after)];
  }

  /** What the one project does not hold, the store does not. */
  lemma HeldBelow(entries: Entries, p: Path)
    requires forall q: Path :: !Holds(Folder(entries), q, "2")
    ensures !Holds(Alone(PROJECT, Folder(entries)), p, "2")
  {
    if p != [] && Exists(Alone(PROJECT, Folder(entries)), p) {
      UnderAlone(PROJECT, Folder(entries), p);
      assert !Holds(Folder(entries), p[1..], "2");
    }
  }
}
