/** Merging transcript roots into one shared store. */
module StoreMerge {
  import opened Common
  import opened StoreLines
  import opened StoreNames

  type Name = n: string | n != "" witness "a"
  type Path = seq<Name>

  datatype Tree = File(content: string) | Folder(entries: map<Name, Tree>)

  function Sub(t: Tree, p: Path): Option<Tree>
    decreases |p|
  {
    if p == [] then Some(t)
    else if t.Folder? && p[0] in t.entries then Sub(t.entries[p[0]], p[1..])
    else None
  }

  predicate Exists(t: Tree, p: Path) { Sub(t, p).Some? }

  predicate IsFile(t: Tree, p: Path) { Sub(t, p).Some? && Sub(t, p).value.File? }

  predicate Has(t: Tree, p: Path, content: string) { Sub(t, p) == Some(File(content)) }

  function Last(p: Path): Name
    requires p != []
  {
    p[|p| - 1]
  }

  function Aside(p: Path, tag: Tag): Path
    requires p != []
  {
    p[..|p| - 1] + [Suffixed(Last(p), tag)]
  }

  /** The store still tells this content under this path: byte for byte, or line by line for a memory index. */
  predicate Holds(t: Tree, p: Path, content: string) {
    || Has(t, p, content)
    || (p != [] && Last(p) == MEMORY && IsFile(t, p) && LinesKept(content, Sub(t, p).value.content))
  }

  datatype Resolution = Abort | Dedupe | Unite | SetAside

  function Resolve(name: Name, existing: Tree, incoming: string): Resolution {
    if Transcript(name) then Abort
    else if existing == File(incoming) then Dedupe
    else if name == MEMORY then Unite
    else SetAside
  }

  datatype Outcome = Merged | Collision | NotAFile

  /** No file that has to step aside finds its suffixed name taken, in either tree. */
  predicate Fresh(source: Tree, target: Tree, tag: Tag)
    decreases source
  {
    source.Folder? && target.Folder? ==>
      forall n :: n in source.entries && n in target.entries ==>
        if source.entries[n].Folder? then Fresh(source.entries[n], target.entries[n], tag)
        else Resolve(n, target.entries[n], source.entries[n].content).SetAside? ==>
          Suffixed(n, tag) !in source.entries && Suffixed(n, tag) !in target.entries
  }

  /** A source file is still at home, in the store, or in the store under its suffixed name. */
  predicate Safe(source: Tree, p: Path, content: string, rest: Tree, store: Tree, tag: Tag) {
    || Has(rest, p, content)
    || Holds(store, p, content)
    || (p != [] && !Exists(source, Aside(p, tag)) && Has(store, Aside(p, tag), content))
  }

  predicate Kind(t: Tree, p: Path, file: bool) { Exists(t, p) && IsFile(t, p) == file }

  /** Everything in the store was there, came from the source, or is a source file set aside; files stay files. */
  ghost predicate Comes(source: Tree, target: Option<Tree>, p: Path, file: bool, tag: Tag) {
    || (target.Some? && Kind(target.value, p, file))
    || Kind(source, p, file)
    || (file && exists q: Path :: StepsAside(source, q, p, tag))
  }

  ghost predicate StepsAside(source: Tree, q: Path, p: Path, tag: Tag) {
    q != [] && p == Aside(q, tag) && IsFile(source, q) && !Transcript(Last(q))
  }

  ghost predicate AllSafe(source: Tree, rest: Tree, store: Tree, tag: Tag) {
    forall p: Path, c :: Has(source, p, c) ==> Safe(source, p, c, rest, store, tag)
  }

  ghost predicate AllHeld(target: Tree, store: Tree) {
    forall p: Path, c :: Has(target, p, c) ==> Holds(store, p, c)
  }

  ghost predicate NothingNew(source: Tree, target: Option<Tree>, store: Tree, tag: Tag) {
    forall p: Path :: Exists(store, p) ==> Comes(source, target, p, IsFile(store, p), tag)
  }

  ghost predicate Collides(source: Tree, target: Tree) {
    exists p: Path :: CollidesAt(source, target, p)
  }

  predicate CollidesAt(source: Tree, target: Tree, p: Path) {
    p != [] && Transcript(Last(p)) && IsFile(source, p) && Exists(target, p)
  }

  type Entries = map<Name, Tree>

  /** Part of a folder is merged: the entries in `todo` are still as they were on both sides. */
  ghost predicate Midway(source: Entries, target: Entries, todo: set<Name>, rest: Entries, store: Entries, tag: Tag) {
    && todo <= source.Keys
    && (forall n :: n in todo ==> n in rest && rest[n] == source[n])
    && (forall n :: n in todo ==> (n in store <==> n in target) && (n in target ==> store[n] == target[n]))
    && (forall p: Path, c :: p != [] && p[0] !in todo && Has(Folder(source), p, c) ==>
         Safe(Folder(source), p, c, Folder(rest), Folder(store), tag))
    && AllHeld(Folder(target), Folder(store))
    && NothingNew(Folder(source), Some(Folder(target)), Folder(store), tag)
  }

  function Alone(n: Name, t: Tree): Tree { Folder(map[n := t]) }

  function OnlyAt(n: Name, t: Entries): Tree { Folder(if n in t then map[n := t[n]] else map[]) }

  lemma AsideHead(p: Path, tag: Tag)
    requires p != []
    ensures Aside(p, tag)[0] == if |p| == 1 then Suffixed(p[0], tag) else p[0]
    ensures |p| > 1 ==> Aside(p, tag)[1..] == Aside(p[1..], tag)
  {
  }

  ghost predicate Agree(t: Entries, u: Entries, p: Path) {
    p != [] ==> Sub(Folder(t), p) == Sub(Folder(u), p)
  }

  /** What merging one entry alone must achieve: `now` replaces it in the store, `rest` stays at home. */
  ghost predicate EntryMerged(m: Name, source: Tree, target: Entries, rest: Entries, now: Tree, tag: Tag) {
    && AllSafe(Alone(m, source), OnlyAt(m, rest), Alone(m, now), tag)
    && AllHeld(OnlyAt(m, target), Alone(m, now))
    && NothingNew(Alone(m, source), Some(OnlyAt(m, target)), Alone(m, now), tag)
  }

  ghost predicate SameBut(m: Name, a: Entries, b: Entries) {
    forall n :: n != m ==> (n in a <==> n in b) && (n in a ==> a[n] == b[n])
  }

  lemma ReplacedSafe(source: Entries, rest: Entries, store: Entries, tag: Tag, m: Name, now: Tree, rest': Entries,
                     p: Path, c: string)
    requires m in source && p != [] && Has(Folder(source), p, c) && SameBut(m, rest, rest')
    requires p[0] != m ==> Safe(Folder(source), p, c, Folder(rest), Folder(store), tag)
    requires p[0] == m ==> AllSafe(Alone(m, source[m]), OnlyAt(m, rest'), Alone(m, now), tag)
    ensures Safe(Folder(source), p, c, Folder(rest'), Folder(store[m := now]), tag)
  {
    var away := Aside(p, tag);
    AsideHead(p, tag);
    if p[0] == m {
      assert Has(Alone(m, source[m]), p, c);
      assert Safe(Alone(m, source[m]), p, c, OnlyAt(m, rest'), Alone(m, now), tag);
    } else if away[0] == m {
      assert Exists(Folder(source), away);
    }
  }

  lemma ReplacedOrigin(source: Entries, target: Entries, store: Entries, tag: Tag, m: Name, now: Tree, p: Path)
    requires m in source && Exists(Folder(store[m := now]), p)
    requires NothingNew(Folder(source), Some(Folder(target)), Folder(store), tag)
    requires NothingNew(Alone(m, source[m]), Some(OnlyAt(m, target)), Alone(m, now), tag)
    ensures Comes(Folder(source), Some(Folder(target)), p, IsFile(Folder(store[m := now]), p), tag)
  {
    if p == [] {
      assert Kind(Folder(source), p, false);
    } else if p[0] == m {
      assert Exists(Alone(m, now), p);
      if q: Path :| StepsAside(Alone(m, source[m]), q, p, tag) {
        assert StepsAside(Folder(source), q, p, tag);
      }
    } else {
      assert Exists(Folder(store), p);
    }
  }

  /** One entry is merged; the others are as they were. */
  lemma Replaced(source: Entries, target: Entries, todo: set<Name>, rest: Entries, store: Entries, tag: Tag,
                 m: Name, now: Tree, rest': Entries)
    requires Midway(source, target, todo, rest, store, tag) && m in todo
    requires SameBut(m, rest, rest') && EntryMerged(m, source[m], target, rest', now, tag)
    ensures Midway(source, target, todo - {m}, rest', store[m := now], tag)
  {
    forall p: Path, c | p != [] && p[0] !in todo - {m} && Has(Folder(source), p, c)
      ensures Safe(Folder(source), p, c, Folder(rest'), Folder(store[m := now]), tag)
    {
      ReplacedSafe(source, rest, store, tag, m, now, rest', p, c);
    }
    forall p: Path, c | Has(Folder(target), p, c) ensures Holds(Folder(store[m := now]), p, c) {
      if p[0] == m { assert Has(OnlyAt(m, target), p, c); } else { assert Holds(Folder(store), p, c); }
    }
    var after := Folder(store[m := now]);
    forall p: Path | Exists(after, p) ensures Comes(Folder(source), Some(Folder(target)), p, IsFile(after, p), tag) {
      ReplacedOrigin(source, target, store, tag, m, now, p);
    }
  }

  lemma FileLeaf(t: Entries, p: Path)
    requires p != [] && Exists(Folder(t), p) && p[0] in t && t[p[0]].File?
    ensures p == [p[0]]
  {
    assert p[1..] != [] ==> !Exists(t[p[0]], p[1..]);
  }

  lemma AsideOne(m: Name, tag: Tag)
    ensures Aside([m], tag) == [Suffixed(m, tag)]
  {
    assert [m][..0] == [];
  }

  lemma SteppedSafe(source: Entries, rest: Entries, store: Entries, tag: Tag, m: Name, p: Path, c: string)
    requires p != [] && Has(Folder(source), p, c) && m in source && source[m].File? && Suffixed(m, tag) !in source
    requires p[0] != m ==> Safe(Folder(source), p, c, Folder(rest), Folder(store), tag)
    ensures Safe(Folder(source), p, c, Folder(rest - {m}), Folder(store[Suffixed(m, tag) := source[m]]), tag)
  {
    if p[0] == m {
      FileLeaf(source, p);
      SteppedItself(source, rest, store, tag, m);
    } else {
      AsideHead(p, tag);
      if |p| == 1 && Aside(p, tag)[0] == Suffixed(m, tag) { SuffixedInjective(p[0], tag, m, tag); }
    }
  }

  lemma SteppedItself(source: Entries, rest: Entries, store: Entries, tag: Tag, m: Name)
    requires m in source && source[m].File? && Suffixed(m, tag) !in source
    ensures Safe(Folder(source), [m], source[m].content, Folder(rest - {m}),
                 Folder(store[Suffixed(m, tag) := source[m]]), tag)
    ensures Sub(Folder(source), [m]) == Some(source[m])
  {
    var n: Name := Suffixed(m, tag);
    AsideOne(m, tag);
    assert [m][1..] == [] && [n][1..] == [];
    assert !Exists(Folder(source), [n]);
    assert Sub(Folder(store[n := source[m]]), [n]) == Some(source[m]);
  }

  lemma SteppedOrigin(source: Entries, target: Entries, store: Entries, tag: Tag, m: Name, p: Path)
    requires m in source && source[m].File? && !Transcript(m) && Exists(Folder(store[Suffixed(m, tag) := source[m]]), p)
    requires NothingNew(Folder(source), Some(Folder(target)), Folder(store), tag)
    ensures Comes(Folder(source), Some(Folder(target)), p, IsFile(Folder(store[Suffixed(m, tag) := source[m]]), p), tag)
  {
    if p == [] {
      assert Kind(Folder(source), p, false);
    } else if p[0] == Suffixed(m, tag) {
      FileLeaf(store[Suffixed(m, tag) := source[m]], p);
      AsideOne(m, tag);
      assert p[1..] == [];
      assert StepsAside(Folder(source), [m], p, tag);
    } else {
      assert Exists(Folder(store), p);
    }
  }

  /** A file steps aside under a name that neither tree holds. */
  lemma SteppedAside(source: Entries, target: Entries, todo: set<Name>, rest: Entries, store: Entries, tag: Tag,
                     m: Name)
    requires Midway(source, target, todo, rest, store, tag) && m in todo && source[m].File? && !Transcript(m)
    requires Suffixed(m, tag) !in source && Suffixed(m, tag) !in target
    ensures Midway(source, target, todo - {m}, rest - {m}, store[Suffixed(m, tag) := source[m]], tag)
  {
    var n: Name := Suffixed(m, tag);
    var rest', store' := rest - {m}, store[n := source[m]];
    forall p: Path, c | p != [] && p[0] !in todo - {m} && Has(Folder(source), p, c)
      ensures Safe(Folder(source), p, c, Folder(rest'), Folder(store'), tag)
    {
      SteppedSafe(source, rest, store, tag, m, p, c);
    }
    forall p: Path, c | Has(Folder(target), p, c) ensures Holds(Folder(store'), p, c) {
      assert Holds(Folder(store), p, c);
    }
    forall p: Path | Exists(Folder(store'), p)
      ensures Comes(Folder(source), Some(Folder(target)), p, IsFile(Folder(store'), p), tag)
    {
      SteppedOrigin(source, target, store, tag, m, p);
    }
  }

  /** The two trees disagree somewhere about what is a file and what a folder. */
  ghost predicate Clashes(source: Tree, target: Tree) {
    exists p: Path :: ClashesAt(source, target, p)
  }

  predicate ClashesAt(source: Tree, target: Tree, p: Path) {
    Exists(source, p) && Exists(target, p) && IsFile(source, p) != IsFile(target, p)
  }

  lemma {:induction false} LiftedSub(m: Name, t: Entries, q: Path)
    ensures Sub(Folder(t), [m] + q) == if m in t then Sub(t[m], q) else None
  {
    assert ([m] + q)[0] == m && ([m] + q)[1..] == q;
  }

  lemma UnderAlone(m: Name, x: Tree, p: Path)
    requires p != [] && Exists(Alone(m, x), p)
    ensures p == [m] + p[1..] && Sub(x, p[1..]) == Sub(Alone(m, x), p)
    ensures x.File? ==> p == [m]
    ensures x.Folder? && IsFile(Alone(m, x), p) ==> p[1..] != []
  {
    assert p[1..] == [] ==> Sub(x, p[1..]) == Some(x);
    if x.File? { FileLeaf(map[m := x], p); }
  }

  lemma AloneAt(m: Name, x: Tree)
    ensures Sub(Alone(m, x), [m]) == Some(x)
  {
    assert [m][1..] == [];
  }

  lemma LiftedHolds(m: Name, x: Tree, q: Path, c: string)
    requires q != [] && Holds(x, q, c)
    ensures Holds(Alone(m, x), [m] + q, c)
  {
    LiftedSub(m, map[m := x], q);
  }

  lemma LiftedAside(m: Name, q: Path, tag: Tag)
    requires q != []
    ensures Aside([m] + q, tag) == [m] + Aside(q, tag)
  {
    assert ([m] + q)[..|q|] == [m] + q[..|q| - 1];
  }

  lemma LiftedSafe(m: Name, s: Tree, q: Path, c: string, r: Tree, x: Tree, tag: Tag, rest: Entries)
    requires q != [] && Has(s, q, c) && Safe(s, q, c, r, x, tag)
    requires if m in rest then rest[m] == r else r == Folder(map[])
    ensures Safe(Alone(m, s), [m] + q, c, OnlyAt(m, rest), Alone(m, x), tag)
  {
    LiftedAside(m, q, tag);
    LiftedSub(m, map[m := s], Aside(q, tag));
    LiftedSub(m, map[m := x], Aside(q, tag));
    LiftedSub(m, if m in rest then map[m := rest[m]] else map[], q);
    if Holds(x, q, c) { LiftedHolds(m, x, q, c); }
  }

  lemma LiftedOrigin(m: Name, s: Tree, target: Entries, tag: Tag, q: Path, file: bool)
    requires Comes(s, if m in target then Some(target[m]) else None, q, file, tag)
    ensures Comes(Alone(m, s), Some(OnlyAt(m, target)), [m] + q, file, tag)
  {
    LiftedSub(m, map[m := s], q);
    LiftedSub(m, if m in target then map[m := target[m]] else map[], q);
    if k: Path :| file && StepsAside(s, k, q, tag) {
      LiftedAside(m, k, tag);
      LiftedSub(m, map[m := s], k);
      assert StepsAside(Alone(m, s), [m] + k, [m] + q, tag);
    }
  }

  /** What was merged inside a folder is merged at that folder's entry. */
  lemma Lifted(m: Name, s: Tree, target: Entries, r: Tree, x: Tree, tag: Tag, rest: Entries)
    requires s.Folder? && AllSafe(s, r, x, tag) && (if m in rest then rest[m] == r else r == Folder(map[]))
    requires m in target ==> AllHeld(target[m], x) && (target[m].Folder? || x == target[m])
    requires NothingNew(s, if m in target then Some(target[m]) else None, x, tag)
    ensures EntryMerged(m, s, target, rest, x, tag)
  {
    forall p: Path, c | Has(Alone(m, s), p, c) ensures Safe(Alone(m, s), p, c, OnlyAt(m, rest), Alone(m, x), tag) {
      UnderAlone(m, s, p);
      LiftedSafe(m, s, p[1..], c, r, x, tag, rest);
    }
    forall p: Path, c | Has(OnlyAt(m, target), p, c) ensures Holds(Alone(m, x), p, c) {
      UnderAlone(m, target[m], p);
      if target[m].Folder? { LiftedHolds(m, x, p[1..], c); }
    }
    forall p: Path | Exists(Alone(m, x), p)
      ensures Comes(Alone(m, s), Some(OnlyAt(m, target)), p, IsFile(Alone(m, x), p), tag)
    {
      if p == [] {
        assert Kind(Alone(m, s), p, false);
      } else {
        UnderAlone(m, x, p);
        LiftedOrigin(m, s, target, tag, p[1..], IsFile(x, p[1..]));
      }
    }
  }

  /** A file entry that is moved, or already there with the same bytes, or united line by line. */
  lemma FileMerged(m: Name, content: string, target: Entries, rest: Entries, now: string, tag: Tag)
    requires now == content || (m == MEMORY && LinesKept(content, now))
    requires m in target ==> target[m].File?
    requires m in target ==> now == target[m].content || (m == MEMORY && LinesKept(target[m].content, now))
    ensures EntryMerged(m, File(content), target, rest, File(now), tag)
  {
    AloneAt(m, File(now));
    forall p: Path, c | Has(Alone(m, File(content)), p, c) ensures Holds(Alone(m, File(now)), p, c) {
      AloneAt(m, File(content));
      UnderAlone(m, File(content), p);
    }
    forall p: Path, c | Has(OnlyAt(m, target), p, c) ensures Holds(Alone(m, File(now)), p, c) {
      AloneAt(m, target[m]);
      UnderAlone(m, target[m], p);
    }
    forall p: Path | Exists(Alone(m, File(now)), p)
      ensures Kind(Alone(m, File(content)), p, IsFile(Alone(m, File(now)), p))
    {
      AloneAt(m, File(content));
      if p != [] { UnderAlone(m, File(now), p); }
    }
  }

  lemma MidwayStart(source: Entries, target: Entries, tag: Tag)
    ensures Midway(source, target, source.Keys, source, target, tag)
  {
  }

  /** Stopping at any entry leaves every source file safe. */
  lemma MidwaySafe(source: Entries, target: Entries, todo: set<Name>, rest: Entries, store: Entries, tag: Tag)
    requires Midway(source, target, todo, rest, store, tag)
    ensures AllSafe(Folder(source), Folder(rest), Folder(store), tag)
  {
    forall p: Path, c | Has(Folder(source), p, c) ensures Safe(Folder(source), p, c, Folder(rest), Folder(store), tag) {
      assert p != [];
      if p[0] in todo { assert Has(Folder(rest), p, c); }
    }
  }

  /** Setting a file aside keeps everything the folder held exactly when its suffixed name is free, or holds the same
      bytes. */
  lemma SetAsideKeepsIff(store: Entries, m: Name, content: string, tag: Tag)
    requires !Transcript(m) && (Suffixed(m, tag) in store ==> store[Suffixed(m, tag)].File?)
    ensures AllHeld(Folder(store), Folder(store[Suffixed(m, tag) := File(content)]))
      <==> (Suffixed(m, tag) in store ==> store[Suffixed(m, tag)] == File(content))
  {
    var n: Name := Suffixed(m, tag);
    var p: Path := [n];
    var after := store[n := File(content)];
    SuffixedKind(m, tag);
    EntryAt(after, n, p);
    if n in store && store[n] != File(content) {
      var lost := store[n].content;
      EntryAt(store, n, p);
      assert Has(Folder(store), p, lost);
      assert !Has(Folder(after), p, lost);
      assert !Holds(Folder(after), p, lost);
    } else {
      forall q: Path, c | Has(Folder(store), q, c) ensures Holds(Folder(after), q, c) {
        if q[0] == n { FileLeaf(store, q); }
      }
    }
  }

  lemma EntryAt(t: Entries, n: Name, p: Path)
    requires n in t && p == [n]
    ensures Sub(Folder(t), p) == Some(t[n]) && Last(p) == n
  {
    assert p[1..] == [];
  }

  /** The store after one file is merged into it; none when the merge stops there. */
  function FileInto(name: Name, content: string, store: Entries, tag: Tag): Option<Entries> {
    if name !in store then Some(store[name := File(content)])
    else match Resolve(name, store[name], content)
      case Abort => None
      case Dedupe => Some(store)
      case Unite =>
        if store[name].Folder? then None else Some(store[name := File(Union(store[name].content, content))])
      case SetAside => Some(store[Suffixed(name, tag) := File(content)])
  }

  const NOTE: Name := "x"

  /** Roots whose labels meet lose a file: three versions of it under one name and the second one's label twice. */
  lemma SharedLabelLoses(tag: Tag, first: Entries, second: Entries, third: Entries)
    requires Some(first) == FileInto(NOTE, "1", map[], "root")
    requires Some(second) == FileInto(NOTE, "2", first, tag) && Some(third) == FileInto(NOTE, "3", second, tag)
    ensures Holds(Folder(second), [Suffixed(NOTE, tag)], "2")
    ensures forall p: Path :: !Holds(Folder(third), p, "2")
  {
    var aside: Name := Suffixed(NOTE, tag);
    SuffixedKind(NOTE, tag);
    EntryAt(second, aside, [aside]);
    assert third == map[NOTE := File("1"), aside := File("3")];
    forall p: Path ensures !Holds(Folder(third), p, "2") {
      if p != [] && p[0] in third && Exists(Folder(third), p) {
        FileLeaf(third, p);
        EntryAt(third, p[0], p);
        assert p[0] == NOTE || p[0] == aside;
      }
    }
  }

  /** Why a merge stops at a file. */
  function StopAt(name: Name): Outcome { if Transcript(name) then Collision else NotAFile }

  /** One file entry is merged, or stops the merge with nothing changed. */
  method MergeFile(name: Name, content: string, rest: Entries, store: Entries, tag: Tag)
    returns (o: Outcome, rest': Entries, store': Entries)
    ensures FileInto(name, content, store, tag) == if o.Merged? then Some(store') else None
    ensures if o.Merged? then rest' == rest - {name} else rest' == rest && store' == store && o == StopAt(name)
  {
    rest', store' := rest - {name}, store;
    if name !in store { return Merged, rest', store[name := File(content)]; }
    o := Merged;
    match Resolve(name, store[name], content)
    case Abort =>
      return Collision, rest, store;
    case Dedupe =>
    case Unite =>
      if store[name].Folder? { return NotAFile, rest, store; }
      store' := store[name := File(Union(store[name].content, content))];
    case SetAside =>
      store' := store[Suffixed(name, tag) := File(content)];
  }

  /** A file that is still to be merged, and whose suffixed name is free if it has to step aside. */
  ghost predicate Free(name: Name, content: string, source: Entries, target: Entries, todo: set<Name>, tag: Tag) {
    && name in todo && name in source && source[name] == File(content)
    && (name in target && Resolve(name, target[name], content).SetAside? ==>
          Suffixed(name, tag) !in source && Suffixed(name, tag) !in target)
  }

  /** Merging it between the entries of a folder loses nothing that was there. */
  lemma FileKeeps(name: Name, content: string, rest: Entries, store: Entries, tag: Tag, source: Entries,
                  target: Entries, todo: set<Name>)
    requires Midway(source, target, todo, rest, store, tag) && Free(name, content, source, target, todo, tag)
    ensures var after := FileInto(name, content, store, tag);
      if after.Some? then Midway(source, target, todo - {name}, rest - {name}, after.value, tag)
      else name in target && (Transcript(name) || target[name].Folder?)
  {
    var rest' := rest - {name};
    if name !in store {
      FileMerged(name, content, target, rest', content, tag);
      Replaced(source, target, todo, rest, store, tag, name, File(content), rest');
    } else {
      match Resolve(name, store[name], content)
      case Abort =>
      case Dedupe =>
        FileMerged(name, content, target, rest', content, tag);
        Replaced(source, target, todo, rest, store, tag, name, File(content), rest');
        assert store[name := File(content)] == store;
      case Unite =>
        if store[name].File? {
          var now := Union(store[name].content, content);
          UnionKeeps(store[name].content, content);
          FileMerged(name, content, target, rest', now, tag);
          Replaced(source, target, todo, rest, store, tag, name, File(now), rest');
        }
      case SetAside =>
        SteppedAside(source, target, todo, rest, store, tag, name);
    }
  }

  function At(t: Entries, n: Name): Option<Tree> { if n in t then Some(t[n]) else None }

  /** The order in which a directory's entries are listed. */
  type Listing = Entries -> seq<Name>

  ghost predicate Lists(listing: Listing) { forall e :: Enumerated(listing(e), e) }

  ghost predicate Enumerated(names: seq<Name>, e: Entries) {
    (forall n :: n in names <==> n in e) && Distinct(names)
  }

  ghost predicate Distinct(names: seq<Name>) { forall i, j :: 0 <= i < j < |names| ==> names[i] != names[j] }

  /** How a merge ends: what stays at home, and the store. */
  datatype Merge = Merge(o: Outcome, rest: Tree, store: Tree)

  /** A folder merged into the store, whatever names are free. */
  function MergeOf(source: Tree, target: Option<Tree>, tag: Tag, listing: Listing): Merge
    requires source.Folder? && Lists(listing)
    decreases source, 1, 0
  {
    if target.None? then Merge(Merged, Folder(map[]), source)
    else if target.value.File? then
      Merge(if source.entries == map[] then Merged else NotAFile, source, target.value)
    else
      assert Enumerated(listing(source.entries), source.entries);
      MergeEntries(source, listing(source.entries), source.entries, target.value.entries, tag, listing)
  }

  /** The entries with these names merged one after another; `left` is still at home. */
  function MergeEntries(source: Tree, names: seq<Name>, left: Entries, into: Entries, tag: Tag, listing: Listing): Merge
    requires source.Folder? && Lists(listing) && forall n :: n in names ==> n in source.entries
    decreases source, 0, |names|
  {
    if names == [] then Merge(Merged, Folder(left), Folder(into))
    else
      var name := names[0];
      match source.entries[name]
      case Folder(_) =>
        var m := MergeOf(source.entries[name], At(into, name), tag, listing);
        if m.o.Merged? then
          MergeEntries(source, names[1..], left - {name}, into[name := m.store], tag, listing)
        else Merge(m.o, Folder(left[name := m.rest]), Folder(into[name := m.store]))
      case File(content) =>
        var after := FileInto(name, content, into, tag);
        if after.None? then Merge(StopAt(name), Folder(left), Folder(into))
        else MergeEntries(source, names[1..], left - {name}, after.value, tag, listing)
  }

  /** Merging a folder whose suffixed names are free loses nothing, and stops only at a collision or a clash. */
  ghost predicate Keeps(source: Tree, target: Option<Tree>, m: Merge, tag: Tag) {
    && AllSafe(source, m.rest, m.store, tag) && NothingNew(source, target, m.store, tag)
    && (target.Some? ==> AllHeld(target.value, m.store))
    && (target.Some? ==> if target.value.Folder? then m.store.Folder? else m.store == target.value)
    && (m.o.Merged? ==> m.rest == Folder(map[]))
    && (m.o.Collision? ==> target.Some? && Collides(source, target.value))
    && (m.o.NotAFile? ==> target.Some? && Clashes(source, target.value))
  }

  lemma {:induction false} MergeOfKeeps(source: Tree, target: Option<Tree>, tag: Tag, listing: Listing)
    requires source.Folder? && Lists(listing) && (target.Some? ==> Fresh(source, target.value, tag))
    ensures Keeps(source, target, MergeOf(source, target, tag, listing), tag)
    decreases source, 1, 0
  {
    if target.Some? {
      if target.value.File? {
        if source.entries != map[] { assert ClashesAt(source, target.value, []); }
      } else {
        var names := listing(source.entries);
        assert Enumerated(names, source.entries);
        MidwayStart(source.entries, target.value.entries, tag);
        EntriesKeep(source, names, source.entries.Keys, source.entries, target.value.entries, target.value.entries, tag,
          listing);
      }
    }
  }

  /** The same for the entries still to be merged. */
  lemma {:induction false} EntriesKeep(source: Tree, names: seq<Name>, todo: set<Name>, left: Entries, into: Entries,
                                       before: Entries, tag: Tag, listing: Listing)
    requires source.Folder? && Lists(listing) && Fresh(source, Folder(before), tag) && Distinct(names)
    requires (forall n :: n in names <==> n in todo) && left.Keys == todo
    requires Midway(source.entries, before, todo, left, into, tag)
    ensures Keeps(source, Some(Folder(before)), MergeEntries(source, names, left, into, tag, listing), tag)
    decreases source, 0, |names|
  {
    var from := source.entries;
    if names == [] {
      assert todo == {};
      MidwaySafe(from, before, todo, left, into, tag);
    } else {
      var name := names[0];
      assert names[1..] == names[1..] && forall n :: n in names[1..] <==> n in todo - {name};
      if from[name].Folder? {
        FolderKeeps(source, name, todo, left, into, before, tag, listing);
        var m := MergeOf(from[name], At(into, name), tag, listing);
        if m.o.Merged? {
          EntriesKeep(source, names[1..], todo - {name}, left - {name}, into[name := m.store], before, tag, listing);
        } else {
          MidwaySafe(from, before, todo - {name}, left[name := m.rest], into[name := m.store], tag);
          LiftedClash(name, from, before);
        }
      } else {
        var content := from[name].content;
        FileKeeps(name, content, left, into, tag, from, before, todo);
        var after := FileInto(name, content, into, tag);
        if after.Some? {
          EntriesKeep(source, names[1..], todo - {name}, left - {name}, after.value, before, tag, listing);
        } else {
          MidwaySafe(from, before, todo, left, into, tag);
          EntryClash(name, from, before);
        }
      }
    }
  }

  lemma FolderKeeps(source: Tree, name: Name, todo: set<Name>, left: Entries, into: Entries, before: Entries, tag: Tag,
                    listing: Listing)
    requires source.Folder? && Lists(listing) && Fresh(source, Folder(before), tag)
    requires name in todo && name in source.entries && source.entries[name].Folder?
    requires Midway(source.entries, before, todo, left, into, tag)
    ensures var m := MergeOf(source.entries[name], At(into, name), tag, listing);
      && Midway(source.entries, before, todo - {name}, if m.o.Merged? then left - {name} else left[name := m.rest],
                into[name := m.store], tag)
      && (m.o.Collision? ==> name in before && Collides(source.entries[name], before[name]))
      && (m.o.NotAFile? ==> name in before && Clashes(source.entries[name], before[name]))
    decreases source, 0, 0
  {
    var from := source.entries;
    MergeOfKeeps(from[name], At(into, name), tag, listing);
    var m := MergeOf(from[name], At(into, name), tag, listing);
    var left' := if m.o.Merged? then left - {name} else left[name := m.rest];
    Lifted(name, from[name], before, m.rest, m.store, tag, left');
    Replaced(from, before, todo, left, into, tag, name, m.store, left');
  }

  /** Merges a folder into the store, one entry after another in the order of the listing. When the suffixed names are
      free, nothing is lost, whatever the outcome. */
  method MergeTree(source: Tree, target: Option<Tree>, tag: Tag, listing: Listing)
    returns (o: Outcome, rest: Tree, store: Tree)
    requires source.Folder? && Lists(listing)
    ensures Merge(o, rest, store) == MergeOf(source, target, tag, listing)
    ensures (target.Some? ==> Fresh(source, target.value, tag)) ==> Keeps(source, target, Merge(o, rest, store), tag)
    decreases source
  {
    if target.None? || Fresh(source, target.value, tag) { MergeOfKeeps(source, target, tag, listing); }
    if target.None? { return Merged, Folder(map[]), source; }
    if target.value.File? {
      return if source.entries == map[] then Merged else NotAFile, source, target.value;
    }
    var from, into, left := source.entries, target.value.entries, source.entries;
    var names := listing(from);
    assert Enumerated(names, from);
    for i := 0 to |names|
      invariant MergeEntries(source, names[i..], left, into, tag, listing) == MergeOf(source, target, tag, listing)
    {
      var name := names[i];
      assert names[i..][0] == name && names[i..][1..] == names[i + 1..];
      if from[name].Folder? {
        var o', r, x := MergeTree(from[name], At(into, name), tag, listing);
        if !o'.Merged? { return o', Folder(left[name := r]), Folder(into[name := x]); }
        left, into := left - {name}, into[name := x];
      } else {
        var o', left', into' := MergeFile(name, from[name].content, left, into, tag);
        if !o'.Merged? { return o', Folder(left), Folder(into); }
        left, into := left', into';
      }
    }
    o, rest, store := Merged, Folder(left), Folder(into);
  }

  lemma LiftedClash(m: Name, source: Entries, target: Entries)
    requires m in source && m in target
    ensures Collides(source[m], target[m]) ==> Collides(Folder(source), Folder(target))
    ensures Clashes(source[m], target[m]) ==> Clashes(Folder(source), Folder(target))
  {
    if p: Path :| CollidesAt(source[m], target[m], p) {
      LiftedSub(m, source, p);
      LiftedSub(m, target, p);
      assert CollidesAt(Folder(source), Folder(target), [m] + p);
    }
    if p: Path :| ClashesAt(source[m], target[m], p) {
      LiftedSub(m, source, p);
      LiftedSub(m, target, p);
      assert ClashesAt(Folder(source), Folder(target), [m] + p);
    }
  }

  lemma EntryClash(m: Name, source: Entries, target: Entries)
    requires m in source && m in target && source[m].File?
    ensures Transcript(m) ==> Collides(Folder(source), Folder(target))
    ensures target[m].Folder? ==> Clashes(Folder(source), Folder(target))
  {
    assert [m][1..] == [] && Last([m]) == m;
    assert Sub(Folder(source), [m]) == Some(source[m]) && Sub(Folder(target), [m]) == Some(target[m]);
    assert Transcript(m) ==> CollidesAt(Folder(source), Folder(target), [m]);
    assert target[m].Folder? ==> ClashesAt(Folder(source), Folder(target), [m]);
  }
}
