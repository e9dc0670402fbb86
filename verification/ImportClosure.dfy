/** Which files a CI job executes, and whether a pull request touches them. */
module ImportClosure {
  import opened Common

  /** A checkout: its root, the paths that are regular files, and the paths each file's text names. */
  datatype Repo = Repo(root: string, files: set<string>, names: map<string, seq<string>>) {
    predicate InRoot(path: string) { root + "/" <= path }

    function Targets(file: string): seq<string> {
      if file in files && file in names then names[file] else []
    }
  }

  /** A set of paths that holds the entries and every in-root path named by a file it holds. */
  predicate Closed(r: Repo, entries: seq<string>, s: set<string>) {
    && (forall e :: e in entries ==> e in s)
    && (forall f :: f in s ==> forall t :: t in r.Targets(f) && r.InRoot(t) ==> t in s)
  }

  ghost predicate InEvery(r: Repo, entries: seq<string>, path: string) {
    forall s: set<string> :: Closed(r, entries, s) ==> path in s
  }

  ghost predicate Least(r: Repo, entries: seq<string>, s: set<string>) {
    Closed(r, entries, s) && forall p :: p in s ==> InEvery(r, entries, p)
  }

  /** Every in-root target is visited, waiting, or (when it is no file) recorded. */
  predicate Followed(r: Repo, file: string, visited: set<string>, queue: seq<string>, reached: set<string>) {
    forall t :: t in r.Targets(file) && r.InRoot(t) ==> t in visited || t in queue || t in reached
  }

  method Follow(r: Repo, file: string, visited: set<string>, queue: seq<string>, reached: set<string>)
    returns (queue': seq<string>, reached': set<string>)
    ensures queue <= queue' && reached <= reached'
    ensures Followed(r, file, visited, queue', reached')
    ensures forall t :: t in queue' && t !in queue ==> t in r.files && t in r.Targets(file) && r.InRoot(t)
    ensures forall i :: |queue| <= i < |queue'| ==> queue'[i] !in visited
    ensures forall t :: t in reached' && t !in reached ==> t !in r.files && t in r.Targets(file) && r.InRoot(t)
  {
    queue', reached' := queue, reached;
    var targets := r.Targets(file);
    for i := 0 to |targets|
      invariant queue <= queue' && reached <= reached'
      invariant forall t :: t in targets[..i] && r.InRoot(t) ==> t in visited || t in queue' || t in reached'
      invariant forall t :: t in queue' && t !in queue ==> t in r.files && t in targets && r.InRoot(t)
      invariant forall k :: |queue| <= k < |queue'| ==> queue'[k] !in visited
      invariant forall t :: t in reached' && t !in reached ==> t !in r.files && t in targets && r.InRoot(t)
    {
      var target := targets[i];
      if r.InRoot(target) {
        if target in r.files {
          if target !in visited { queue' := queue' + [target]; }
        } else {
          reached' := reached' + {target};
        }
      }
    }
  }

  ghost predicate Sound(r: Repo, entries: seq<string>, queue: seq<string>, reached: set<string>) {
    forall p :: p in reached || p in queue ==> InEvery(r, entries, p)
  }

  predicate Tracked(r: Repo, entries: seq<string>, visited: set<string>, queue: seq<string>, reached: set<string>) {
    && visited <= reached
    && (forall p :: p in reached ==> p in visited || p !in r.files)
    && (forall e :: e in entries ==> e in visited || e in queue)
    && (forall f :: f in visited ==> Followed(r, f, visited, queue, reached))
  }

  function Universe(r: Repo, entries: seq<string>): set<string> { (set e | e in entries) + r.files }

  /** One turn of the worklist: take the last path off the queue and follow it. */
  method Visit(r: Repo, entries: seq<string>, visited: set<string>, queue: seq<string>, reached: set<string>)
    returns (visited': set<string>, queue': seq<string>, reached': set<string>)
    requires queue != [] && Sound(r, entries, queue, reached) && Tracked(r, entries, visited, queue, reached)
    ensures Sound(r, entries, queue', reached') && Tracked(r, entries, visited', queue', reached')
    ensures var file := queue[|queue| - 1];
      if file in visited then visited' == visited && |queue'| < |queue| else visited' == visited + {file}
    ensures forall p :: p in queue' ==> p in queue || p in r.files
  {
    var file, rest := queue[|queue| - 1], queue[..|queue| - 1];
    assert forall p :: p in queue <==> p in rest || p == file;
    if file in visited { return visited, rest, reached; }
    visited' := visited + {file};
    queue', reached' := Follow(r, file, visited', rest, reached + {file});
    assert forall p :: p in rest ==> p in queue';
    assert InEvery(r, entries, file);
  }

  /** The worklist ends on any import graph and returns the least closed set. */
  method ExecutedPaths(r: Repo, entries: seq<string>) returns (reached: set<string>)
    ensures Least(r, entries, reached)
  {
    reached := {};
    var queue, visited: set<string> := entries, {};
    ghost var universe := Universe(r, entries);
    while queue != []
      invariant Sound(r, entries, queue, reached) && Tracked(r, entries, visited, queue, reached)
      invariant forall p :: p in queue ==> p in universe
      decreases |universe - visited|, |queue|
    {
      FewerLeft(universe, visited, queue[|queue| - 1]);
      visited, queue, reached := Visit(r, entries, visited, queue, reached);
    }
  }

  lemma FewerLeft(universe: set<string>, visited: set<string>, file: string)
    requires file in universe
    ensures file !in visited ==> |universe - (visited + {file})| < |universe - visited|
  {
    assert file !in visited ==> universe - visited == (universe - (visited + {file})) + {file};
  }

  datatype Reason = Unreadable | EmptyDiff | JobChange(file: string) | Under(file: string, prefix: string)
    | Executed(file: string) | NoneExecuted(changed: nat, executed: nat)

  datatype Scope = Scope(run: bool, reason: Reason)

  const ALWAYS_IN_SCOPE := ["package.json", "bun.lock", "bunfig.toml", "tsconfig.json", "tsconfig.production.json",
    "scripts/ci-platform-scope.ts"]

  function Absolute(r: Repo, file: string): string { r.root + "/" + file }

  /** `prefixes.find`: the first prefix the file starts with. */
  function FirstPrefix(prefixes: seq<string>, file: string): (p: Option<string>)
    ensures p.Some? ==> p.value in prefixes && p.value <= file
    ensures p.None? ==> forall q :: q in prefixes ==> !(q <= file)
  {
    if prefixes == [] then None
    else if prefixes[0] <= file then Some(prefixes[0])
    else
      assert forall q :: q in prefixes ==> q == prefixes[0] || q in prefixes[1..];
      FirstPrefix(prefixes[1..], file)
  }

  predicate JobFile(workflow: string, file: string) { file == workflow || file in ALWAYS_IN_SCOPE }

  predicate Touches(r: Repo, workflow: string, prefixes: seq<string>, executed: set<string>, file: string) {
    || file == workflow || file in ALWAYS_IN_SCOPE || (exists p :: p in prefixes && p <= file)
    || r.root + "/" + file in executed
  }

  /** The job has something to run, or nobody can tell. */
  predicate InScope(r: Repo, workflow: string, prefixes: seq<string>, executed: set<string>,
                    changed: Option<seq<string>>) {
    || changed.None? || changed.value == []
    || exists file :: file in changed.value && Touches(r, workflow, prefixes, executed, file)
  }

  /** What a reason claims about the pull request. */
  predicate Explains(r: Repo, workflow: string, prefixes: seq<string>, executed: set<string>,
                     changed: Option<seq<string>>, reason: Reason) {
    match reason
    case Unreadable => changed.None?
    case EmptyDiff => changed == Some([])
    case JobChange(file) => changed.Some? && file in changed.value && (file == workflow || file in ALWAYS_IN_SCOPE)
    case Under(file, prefix) =>
      changed.Some? && file in changed.value && prefix in prefixes && prefix != "" && prefix <= file
    case Executed(file) => changed.Some? && file in changed.value && r.root + "/" + file in executed
    case NoneExecuted(n, m) => changed.Some? && n == |changed.value| > 0 && m == |executed|
  }

  /** The test of one changed file, in the code's order. */
  function ReasonFor(r: Repo, workflow: string, prefixes: seq<string>, executed: set<string>,
                     file: string): Option<Reason> {
    var prefix := FirstPrefix(prefixes, file);
    if JobFile(workflow, file) then Some(JobChange(file))
    else if prefix.Some? && prefix.value != "" then Some(Under(file, prefix.value))
    else if Absolute(r, file) in executed then Some(Executed(file))
    else None
  }

  /** An empty prefix comes first in line for this file and nothing but a prefix puts it in scope. */
  predicate Masked(r: Repo, workflow: string, prefixes: seq<string>, executed: set<string>, file: string) {
    !JobFile(workflow, file) && Absolute(r, file) !in executed && FirstPrefix(prefixes, file) == Some("")
  }

  method PlatformScope(r: Repo, workflow: string, entries: seq<string>, prefixes: seq<string>,
                       changed: Option<seq<string>>)
    returns (scope: Scope, ghost executed: set<string>)
    ensures Least(r, entries, executed)
    ensures Explains(r, workflow, prefixes, executed, changed, scope.reason)
    ensures scope.run <==> !scope.reason.NoneExecuted?
    ensures scope.run == Answer(r, workflow, prefixes, executed, changed)
  {
    var reached := ExecutedPaths(r, entries);
    executed := reached;
    if changed.None? { return Scope(true, Unreadable), executed; }
    if changed.value == [] { return Scope(true, EmptyDiff), executed; }
    for i := 0 to |changed.value|
      invariant forall file :: file in changed.value[..i] ==> ReasonFor(r, workflow, prefixes, executed, file).None?
    {
      var reason := ReasonFor(r, workflow, prefixes, reached, changed.value[i]);
      if reason.Some? { return Scope(true, reason.value), executed; }
    }
    assert changed.value[..|changed.value|] == changed.value;
    scope := Scope(false, NoneExecuted(|changed.value|, |reached|));
  }

  predicate Answer(r: Repo, workflow: string, prefixes: seq<string>, executed: set<string>,
                   changed: Option<seq<string>>) {
    || changed.None? || changed.value == []
    || exists file :: file in changed.value && ReasonFor(r, workflow, prefixes, executed, file).Some?
  }

  /** The answer is right unless some changed file is masked and every other one is masked or untouched. */
  lemma AnswerIff(r: Repo, workflow: string, prefixes: seq<string>, executed: set<string>, changed: Option<seq<string>>)
    ensures (Answer(r, workflow, prefixes, executed, changed) == InScope(r, workflow, prefixes, executed, changed))
      <==> !(&& changed.Some? && (exists file :: file in changed.value && Masked(r, workflow, prefixes, executed, file))
             && forall file :: file in changed.value ==>
                  Masked(r, workflow, prefixes, executed, file) || !Touches(r, workflow, prefixes, executed, file))
  {
    if changed.Some? {
      forall file | file in changed.value
        ensures ReasonFor(r, workflow, prefixes, executed, file).Some? ==>
          Touches(r, workflow, prefixes, executed, file)
        ensures ReasonFor(r, workflow, prefixes, executed, file).None? ==>
          (Touches(r, workflow, prefixes, executed, file) <==> Masked(r, workflow, prefixes, executed, file))
      {
      }
    }
  }

  /** Without an empty prefix, "do not run" means no changed file touches the job. */
  lemma NoEmptyPrefix(r: Repo, workflow: string, prefixes: seq<string>, executed: set<string>,
                      changed: Option<seq<string>>)
    requires "" !in prefixes
    ensures Answer(r, workflow, prefixes, executed, changed) == InScope(r, workflow, prefixes, executed, changed)
  {
    AnswerIff(r, workflow, prefixes, executed, changed);
  }

  /** A concrete failure: behind an empty prefix, a file under a named one is not noticed. */
  lemma EmptyPrefixHides(r: Repo)
    ensures var changed := Some(["src/a.ts"]);
      && InScope(r, "w.yml", ["", "src/"], {}, changed)
      && !Answer(r, "w.yml", ["", "src/"], {}, changed)
  {
    assert "src/" in ["", "src/"];
    assert FirstPrefix(["", "src/"], "src/a.ts") == Some("");
    assert "src/" <= "src/a.ts";
    assert Touches(r, "w.yml", ["", "src/"], {}, "src/a.ts");
    assert "src/a.ts"[4] == 'a' && "src/a.ts"[0] == 's';
    assert |"package.json"| == 12 && |"src/a.ts"| == 8;
  }
}
