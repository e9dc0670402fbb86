/** Sandboxes recorded by every process of a gate run, and what the outer owner deletes at exit. */
module SandboxJournal {
  import opened Common

  datatype Identity = Identity(directory: string, dev: nat, ino: nat, generation: nat)
  datatype Row = Row(identity: Identity, released: bool)

  /** What a path holds now: a plain directory, or anything else. `place` is where the entry itself is, once the links
      on the way to it are resolved; a symbolic link is where it stands, not where it leads. */
  datatype Node = Directory(dev: nat, ino: nat, place: string) | Other(place: string)

  datatype Op = Allocate(process: nat, key: string, generation: nat) | Release(process: nat, key: string)
    | Outside(files: map<string, Node>)

  predicate Matches(n: Node, id: Identity) {
    n.Directory? && n.dev == id.dev && n.ino == id.ino && n.place == id.directory
  }

  /** The plain directory a record speaks of. */
  function Recorded(id: Identity): Node { Directory(id.dev, id.ino, id.directory) }

  predicate StillItself(files: map<string, Node>, id: Identity) {
    id.directory in files ==> files[id.directory] == Recorded(id)
  }

  function Slashed(directory: string): string {
    if directory != "" && directory[|directory| - 1] == '/' then directory else directory + "/"
  }

  /** A place is a directory's own or lies somewhere in it. */
  predicate Below(place: string, directory: string) { place == directory || Slashed(directory) <= place }

  lemma BelowBelow(place: string, inner: string, outer: string)
    requires Below(place, inner) && Below(inner, outer)
    ensures Below(place, outer)
  {
    assert inner <= Slashed(inner);
  }

  /** Everything is below the root. */
  lemma RootAbove(place: string)
    requires place != "" && place[0] == '/'
    ensures Below(place, "/")
  {
  }

  /** What only begins like a directory is not below it. */
  lemma BesideIsNotBelow(directory: string, more: string)
    requires directory != "" && directory[|directory| - 1] != '/' && more != "" && more[0] != '/'
    ensures !Below(directory + more, directory)
  {
    assert (directory + more)[|directory|] == more[0] && Slashed(directory)[|directory|] == '/';
  }

  predicate Under(place: string, gone: set<string>) { exists d :: d in gone && Below(place, d) }

  /** What recursive removals of these directories leave. */
  function Without(files: map<string, Node>, gone: set<string>): map<string, Node> {
    map p | p in files && !Under(files[p].place, gone) :: files[p]
  }

  function Released(journal: seq<Row>): set<Identity> {
    set row | row in journal && row.released :: row.identity
  }

  /** What the exit handler may delete: rows recorded and never released. */
  function Unreleased(journal: seq<Row>): set<Identity> {
    (set row | row in journal && !row.released :: row.identity) - Released(journal)
  }

  lemma UnreleasedAppend(journal: seq<Row>, row: Row)
    ensures !row.released && (forall r :: r in journal ==> r.identity != row.identity)
      ==> Unreleased(journal + [row]) == Unreleased(journal) + {row.identity}
    ensures row.released ==> Unreleased(journal + [row]) == Unreleased(journal) - {row.identity}
  {
    var all := journal + [row];
    assert forall r :: r in all <==> r in journal || r == row;
    if row.released {
      assert Released(all) == Released(journal) + {row.identity};
    } else {
      assert Released(all) == Released(journal);
    }
  }

  /** A directory the exit handler may remove: it is still what an unreleased record says. */
  ghost predicate Removable(journal: seq<Row>, files: map<string, Node>, id: Identity) {
    id in Unreleased(journal) && id.directory in files && files[id.directory] == Recorded(id)
  }

  /** What its cleanup deletes: such a directory, with everything in it. */
  ghost predicate Deletable(journal: seq<Row>, files: map<string, Node>, path: string) {
    path in files && exists id :: Removable(journal, files, id) && Below(files[path].place, id.directory)
  }

  /** Whatever stands at this place at exit, and by whatever path it is reached, the cleanup leaves it. */
  ghost predicate Survives(journal: seq<Row>, place: string) {
    forall files: map<string, Node>, path |
      path in files && files[path].place == place :: !Deletable(journal, files, path)
  }

  /** No unreleased record names the place or a directory above it. */
  ghost predicate Unclaimed(journal: seq<Row>, place: string) {
    forall id :: id in Unreleased(journal) ==> !Below(place, id.directory)
  }

  lemma SurvivesIff(journal: seq<Row>, place: string)
    ensures Survives(journal, place) <==> Unclaimed(journal, place)
  {
    forall id | id in Unreleased(journal) && Below(place, id.directory) ensures !Survives(journal, place) {
      var there := Directory(id.dev, id.ino, id.directory);
      var files := map[place := Other(place)][id.directory := there];
      assert Removable(journal, files, id) && files[place].place == place;
      assert Deletable(journal, files, place);
    }
  }

  /** Once a record is released, what appears at its place survives exactly when no other unreleased record names that
      place or a directory above it. */
  lemma ReleasedSurvivesIff(journal: seq<Row>, id: Identity)
    ensures Survives(journal + [Row(id, true)], id.directory)
      <==> forall other :: other in Unreleased(journal) && Below(id.directory, other.directory) ==> other == id
  {
    UnreleasedAppend(journal, Row(id, true));
    SurvivesIff(journal + [Row(id, true)], id.directory);
  }

  const FIRST := Identity("/s", 1, 7, 0)
  const SECOND := Identity("/s", 1, 7, 1)
  const INNER := Identity("/s/x", 1, 8, 1)

  /** A directory recorded twice and released once: a later one at the same path with the same inode is deleted. */
  lemma RecordedTwiceLoses()
    ensures var journal := [Row(FIRST, false), Row(SECOND, false), Row(SECOND, true)];
      Deletable(journal, map["/s" := Directory(1, 7, "/s")], "/s")
  {
    var journal := [Row(FIRST, false), Row(SECOND, false), Row(SECOND, true)];
    assert Row(FIRST, false) in journal;
    assert Removable(journal, map["/s" := Directory(1, 7, "/s")], FIRST);
  }

  /** A directory recorded and released inside one that is recorded and stays so: no other record names its path, and
      a new directory there is deleted with the outer one. */
  lemma NestedLoses()
    ensures var journal := [Row(FIRST, false), Row(INNER, false), Row(INNER, true)];
      && (forall id :: id in Unreleased(journal) ==> id.directory != INNER.directory)
      && Deletable(journal, map["/s" := Directory(1, 7, "/s"), "/s/x" := Directory(1, 9, "/s/x")], "/s/x")
  {
    var journal := [Row(FIRST, false), Row(INNER, false), Row(INNER, true)];
    var files := map["/s" := Directory(1, 7, "/s"), "/s/x" := Directory(1, 9, "/s/x")];
    assert Row(FIRST, false) in journal && Row(INNER, true) in journal;
    assert Removable(journal, files, FIRST) && Slashed("/s") == "/s/" <= "/s/x";
  }

  /** This row's generation, or its directory while unreleased, is the one asked for. */
  predicate Taken(row: Row, journal: seq<Row>, files: map<string, Node>, key: string, generation: nat) {
    || row.identity.generation == generation
    || (row.identity in Unreleased(journal) && key in files && row.identity.directory == files[key].place)
  }

  /** Everything the operations work on. */
  datatype State = State(files: map<string, Node>, journal: seq<Row>, allocations: map<(nat, string), Identity>)

  /** One operation: an allocation of what is no directory, and a release of what is not allocated or has changed, leave
      everything as it is. */
  function After(s: State, op: Op): State {
    match op
    case Allocate(process, key, generation) =>
      if key in s.files && s.files[key].Directory? then
        var id := Identity(s.files[key].place, s.files[key].dev, s.files[key].ino, generation);
        State(s.files, s.journal + [Row(id, false)], s.allocations[(process, key) := id])
      else s
    case Release(process, key) =>
      if (process, key) in s.allocations && StillItself(s.files, s.allocations[(process, key)]) then
        var id := s.allocations[(process, key)];
        State(if id.directory in s.files then Without(s.files, {id.directory}) else s.files,
              s.journal + [Row(id, true)], s.allocations - {(process, key)})
      else s
    case Outside(now) => s.(files := now)
  }

  function AfterAll(s: State, ops: seq<Op>): State {
    if ops == [] then s else After(AfterAll(s, ops[..|ops| - 1]), ops[|ops| - 1])
  }

  /** An allocation that may not be made: its generation, or its directory while unreleased, is recorded already. */
  ghost predicate Barred(s: State, op: Op) {
    op.Allocate? && exists row :: row in s.journal && Taken(row, s.journal, s.files, op.key, op.generation)
  }

  /** None of the first operations was barred when it was made. */
  ghost predicate NoneBarred(s: State, ops: seq<Op>, n: nat)
    requires n <= |ops|
  {
    forall i :: 0 <= i < n ==> !Barred(AfterAll(s, ops[..i]), ops[i])
  }

  class Gate {
    var files: map<string, Node>
    var journal: seq<Row>
    var allocations: map<(nat, string), Identity>
    ghost var live: set<Identity>

    /** `live` is what was recorded and not released since; the allocation maps name some of it, each once. */
    ghost predicate Valid()
      reads this
    {
      && live == Unreleased(journal)
      && (forall k :: k in allocations ==> allocations[k] in live)
      && (forall j, k :: j in allocations && k in allocations && j != k ==> allocations[j] != allocations[k])
    }

    /** No directory is recorded twice while unreleased. */
    ghost predicate Distinct()
      reads this
    {
      forall a, b :: a in live && b in live && a.directory == b.directory ==> a == b
    }

    constructor (files: map<string, Node>)
      ensures Valid() && Distinct() && this.files == files && live == {}
    {
      this.files, journal, allocations, live := files, [], map[], {};
    }

    method Record(process: nat, key: string, generation: nat) returns (ok: bool)
      requires Valid() && forall row :: row in journal ==> row.identity.generation != generation
      modifies `journal, `allocations, `live
      ensures Valid() && (ok <==> key in files && files[key].Directory?)
      ensures !ok ==> live == old(live) && journal == old(journal) && allocations == old(allocations)
      ensures ok ==> var id := Identity(files[key].place, files[key].dev, files[key].ino, generation);
        && live == old(live) + {id} && journal == old(journal) + [Row(id, false)]
        && allocations == old(allocations)[(process, key) := id]
    {
      if key !in files || !files[key].Directory? { return false; }
      var id := Identity(files[key].place, files[key].dev, files[key].ino, generation);
      UnreleasedAppend(journal, Row(id, false));
      assert id !in Unreleased(journal);
      journal := journal + [Row(id, false)];
      allocations := allocations[(process, key) := id];
      live := live + {id};
      ok := true;
    }

    /** Removes the directory, with what is in it, only if it is still the recorded one; a changed identity is an
        error that changes nothing. */
    method ReleaseSandbox(process: nat, key: string) returns (ok: bool)
      requires Valid()
      modifies `files, `journal, `allocations, `live
      ensures Valid()
      ensures ok <==> ((process, key) in old(allocations) && StillItself(old(files), old(allocations[(process, key)])))
      ensures !ok ==>
        live == old(live) && files == old(files) && journal == old(journal) && allocations == old(allocations)
      ensures ok ==> var id := old(allocations[(process, key)]);
        && live == old(live) - {id} && journal == old(journal) + [Row(id, true)]
        && allocations == old(allocations) - {(process, key)}
        && files == if id.directory in old(files) then Without(old(files), {id.directory}) else old(files)
    {
      if (process, key) !in allocations { return false; }
      var id := allocations[(process, key)];
      if id.directory in files {
        if !Matches(files[id.directory], id) { return false; }
        files := Without(files, {id.directory});
      }
      UnreleasedAppend(journal, Row(id, true));
      journal := journal + [Row(id, true)];
      allocations := allocations - {(process, key)};
      live := live - {id};
      ok := true;
    }

    /** Other programs may delete, create and replace anything. */
    method Disturb(now: map<string, Node>)
      requires Valid()
      modifies `files
      ensures Valid() && files == now
    {
      files := now;
    }

    /** The exit handler: what it deletes is deletable, and when it succeeds that is all deleted. */
    method Exit() returns (ok: bool)
      requires Valid()
      modifies `files
      ensures forall p :: p in files ==> p in old(files) && files[p] == old(files)[p]
      ensures forall p :: p in old(files) && p !in files ==> Deletable(journal, old(files), p)
      ensures ok ==> forall p :: p in files ==> !Deletable(journal, old(files), p)
      ensures !ok ==>
        exists id :: id in live && id.directory in old(files) && old(files)[id.directory] != Recorded(id)
    {
      ghost var before, gone: set<string> := files, {};
      var released := Released(journal);
      for i := 0 to |journal|
        invariant files == Without(before, gone)
        invariant AllRemovable(journal, before, gone)
        invariant forall row :: row in journal[..i] && row.identity in live ==> row.identity.directory !in files
      {
        var row := journal[i];
        var id := row.identity;
        if !row.released && id !in released {
          assert id in Unreleased(journal);
          ok, gone := Remove(id, before, gone);
          if !ok {
            WithoutDeletable(journal, before, gone);
            return;
          }
        }
      }
      ok := true;
      WithoutDeletable(journal, before, gone);
      assert journal[..|journal|] == journal;
      AllDeleted(journal, before, gone);
    }

    /** Removes one unreleased directory, with everything in it, if it is there and still itself. */
    method Remove(id: Identity, ghost before: map<string, Node>, ghost gone: set<string>)
      returns (ok: bool, ghost now: set<string>)
      requires id in Unreleased(journal) && files == Without(before, gone) && AllRemovable(journal, before, gone)
      modifies `files
      ensures files == Without(before, now) && gone <= now && AllRemovable(journal, before, now)
      ensures forall p :: p in files ==> p in old(files)
      ensures ok ==> id.directory !in files
      ensures !ok ==> id.directory in before && before[id.directory] != Recorded(id)
    {
      now := gone;
      if id.directory !in files { return true, gone; }
      if !Matches(files[id.directory], id) { return false, gone; }
      assert Removable(journal, before, id);
      WithoutOneMore(before, gone, id.directory);
      files := Without(files, {id.directory});
      ok, now := true, gone + {id.directory};
    }

    function Now(): State
      reads this
    {
      State(files, journal, allocations)
    }

    /** One operation that is not barred. */
    method Do(op: Op)
      requires Valid() && Distinct() && !Barred(Now(), op)
      modifies this
      ensures Valid() && Distinct() && Now() == After(old(Now()), op)
    {
      match op
      case Allocate(process, key, generation) =>
        var ok := Record(process, key, generation);
      case Release(process, key) =>
        var ok := ReleaseSandbox(process, key);
      case Outside(now) =>
        Disturb(now);
    }

    method IsBarred(op: Op) returns (barred: bool)
      ensures barred <==> Barred(Now(), op)
    {
      barred := op.Allocate? && exists row :: row in journal && Taken(row, journal, files, op.key, op.generation);
    }

    /** Any sequence of operations, up to the first that would record a directory already recorded and unreleased. */
    method Play(ops: seq<Op>) returns (done: nat)
      requires Valid() && Distinct()
      modifies this
      ensures Valid() && Distinct() && done <= |ops|
      ensures Now() == AfterAll(old(Now()), ops[..done])
      ensures done < |ops| ==> Barred(Now(), ops[done])
      ensures NoneBarred(old(Now()), ops, done)
    {
      ghost var start := Now();
      for i := 0 to |ops|
        invariant Valid() && Distinct() && Now() == AfterAll(start, ops[..i])
        invariant NoneBarred(start, ops, i)
      {
        var barred := IsBarred(ops[i]);
        if barred { return i; }
        Do(ops[i]);
        assert ops[..i + 1][..i] == ops[..i];
      }
      done := |ops|;
    }

    /** After any such run, what appears at a released place stays while no directory above it is recorded and
        unreleased, however the exit handler ends; when it succeeds, what appears there stays exactly if none above it
        is removable. */
    method ReleasedPathSurvives(ops: seq<Op>, process: nat, key: string, now: map<string, Node>)
      returns (released: bool, ghost place: string, ok: bool)
      requires Valid() && Distinct()
      modifies this
      ensures released ==> exists id: Identity :: id.directory == place && Row(id, true) in journal
      ensures released && NoneAbove(place) ==>
        forall p :: p in now && now[p].place == place ==> p in files && files[p] == now[p]
      ensures released && ok ==> forall p | p in now && now[p].place == place ::
        p in files <==> !exists id :: Removable(journal, now, id) && id.directory != place && Below(place, id.directory)
    {
      var done := Play(ops);
      ghost var id := if (process, key) in allocations then allocations[(process, key)] else FIRST;
      place := id.directory;
      released := ReleaseSandbox(process, key);
      Disturb(now);
      ok := Exit();
      if released {
        forall other | other in live ensures other.directory != place { }
      }
    }

    /** No live record is of a directory above this place. */
    ghost predicate NoneAbove(place: string)
      reads this
    {
      forall id :: id in live && id.directory != place ==> !Below(place, id.directory)
    }
  }

  lemma WithoutOneMore(files: map<string, Node>, gone: set<string>, d: string)
    ensures Without(Without(files, gone), {d}) == Without(files, gone + {d})
  {
    assert forall place :: Under(place, gone + {d}) <==> Under(place, gone) || Below(place, d);
    assert forall place :: Under(place, {d}) <==> Below(place, d);
  }

  ghost predicate AllRemovable(journal: seq<Row>, files: map<string, Node>, gone: set<string>) {
    forall d :: d in gone ==> exists id: Identity :: id.directory == d && Removable(journal, files, id)
  }

  /** Only what is deletable goes with removable directories. */
  lemma WithoutDeletable(journal: seq<Row>, files: map<string, Node>, gone: set<string>)
    requires AllRemovable(journal, files, gone)
    ensures forall p :: p in files && p !in Without(files, gone) ==> Deletable(journal, files, p)
  {
    forall p | p in files && p !in Without(files, gone) ensures Deletable(journal, files, p) {
      var d :| d in gone && Below(files[p].place, d);
      var id: Identity :| id.directory == d && Removable(journal, files, id);
    }
  }

  /** When no removable directory is left, nothing below one is. */
  lemma AllDeleted(journal: seq<Row>, files: map<string, Node>, gone: set<string>)
    requires forall row :: row in journal && row.identity in Unreleased(journal) ==>
      row.identity.directory !in Without(files, gone)
    ensures forall p :: p in Without(files, gone) ==> !Deletable(journal, files, p)
  {
    forall p | p in files && Deletable(journal, files, p) ensures p !in Without(files, gone) {
      var id :| Removable(journal, files, id) && Below(files[p].place, id.directory);
      assert Row(id, false) in journal;
      var d :| d in gone && Below(id.directory, d);
      BelowBelow(files[p].place, id.directory, d);
    }
  }
}
