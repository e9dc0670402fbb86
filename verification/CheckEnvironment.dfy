/** The environment a reusable check gets, and the key of everything that reaches it. */
module CheckEnvironment {
  import opened Common
  import opened Ordering

  datatype Binding = Binding(name: string, value: Option<string>)

  /** An environment in insertion order; no name occurs twice. */
  type Env = seq<Binding>

  predicate Unique(e: Env) {
    forall i, j :: 0 <= i < j < |e| ==> e[i].name != e[j].name
  }

  const PATH := "PATH"
  const CHECK_ENV := "LLV_GATE_CHECK_ENV"
  const FORGE_DIR := "LLV_AGENT_FORGE_DIR"
  const BOUNDARY := "LLV_SIGNAL_SANDBOX"
  const GIT_GLOBAL := "GIT_CONFIG_GLOBAL"
  const GIT_SYSTEM := "GIT_CONFIG_SYSTEM"
  const PUBLICATION := "LLV_GATE_PUBLICATION_"

  /** The name classes and path functions the code spells as regular expressions and library calls. */
  datatype Rules = Rules(
    keyed: string -> bool, transport: string -> bool, root: string -> bool, bookkeeping: string -> bool,
    identity: string -> bool, unkeyable: string -> bool, listed: string -> set<string>,
    resolve: string -> string, shim: string -> bool, compare: (string, string) -> bool)

  ghost predicate Sane(r: Rules) {
    && r.keyed(PATH) && r.keyed(CHECK_ENV) && r.keyed(GIT_GLOBAL) && r.keyed(GIT_SYSTEM) && r.transport(BOUNDARY)
    && TotalPreorder(r.compare)
  }

  function Get(e: Env, name: string): Option<string> {
    if e == [] then None
    else if e[0].name == name then e[0].value
    else Get(e[1..], name)
  }

  function Declared(r: Rules, e: Env): set<string> {
    var list := Get(e, CHECK_ENV);
    r.listed(if list.Some? then list.value else "")
  }

  /** Names that pass through to the check. */
  predicate Passes(r: Rules, declared: set<string>, name: string) {
    !(PUBLICATION <= name) && (r.keyed(name) || name in declared || r.transport(name) || r.root(name))
  }

  function Passed(r: Rules, declared: set<string>, e: Env): Env {
    if e == [] then []
    else if e[0].value.Some? && Passes(r, declared, e[0].name) then [e[0]] + Passed(r, declared, e[1..])
    else Passed(r, declared, e[1..])
  }

  function Forge(r: Rules, e: Env): Option<string> {
    var dir := Get(e, FORGE_DIR);
    if dir.Some? && dir.value != "" then Some(r.resolve(dir.value)) else None
  }

  /** A search-path entry that would shadow git and gh. */
  predicate Shadows(r: Rules, forge: Option<string>, entry: string) {
    entry != "" && (Some(r.resolve(entry)) == forge || r.shim(r.resolve(entry)))
  }

  function Clear(r: Rules, forge: Option<string>, entries: seq<string>): seq<string> {
    if entries == [] then []
    else (if Shadows(r, forge, entries[0]) then [] else [entries[0]]) + Clear(r, forge, entries[1..])
  }

  function ClearPath(r: Rules, forge: Option<string>, path: string): string {
    JoinWith(Clear(r, forge, SplitOn(path, ':')), ':')
  }

  function WithPath(r: Rules, forge: Option<string>, e: Env): Env {
    if e == [] then []
    else
      var b := e[0];
      var b' := if b.name == PATH && b.value.Some? then Binding(PATH, Some(ClearPath(r, forge, b.value.value))) else b;
      [b'] + WithPath(r, forge, e[1..])
  }

  function Checked(r: Rules, e: Env): Env {
    WithPath(r, Forge(r, e), Passed(r, Declared(r, e), e))
  }

  method Collect(r: Rules, declared: set<string>, e: Env) returns (result: Env)
    ensures result == Passed(r, declared, e)
  {
    result := [];
    for i := 0 to |e|
      invariant result + Passed(r, declared, e[i..]) == Passed(r, declared, e)
    {
      var b, before, rest := e[i], result, e[i..];
      assert rest[1..] == e[i + 1..] && rest[0] == b;
      if b.value.Some? && Passes(r, declared, b.name) {
        result := result + [b];
        assert before + ([b] + Passed(r, declared, e[i + 1..])) == result + Passed(r, declared, e[i + 1..]);
      }
    }
    assert e[|e|..] == [];
    assert result + [] == result;
  }

  method CheckEnvironment(r: Rules, e: Env) returns (result: Env)
    ensures result == Checked(r, e)
  {
    result := Collect(r, Declared(r, e), e);
    result := WithPath(r, Forge(r, e), result);
  }

  /** The value a check sees under a name that passes. */
  function Seen(r: Rules, e: Env, name: string): Option<string> {
    var v := Get(e, name);
    if name == PATH && v.Some? then Some(ClearPath(r, Forge(r, e), v.value)) else v
  }

  lemma HeadUnique(e: Env)
    requires Unique(e) && e != []
    ensures Unique(e[1..]) && forall b :: b in e[1..] ==> b.name != e[0].name
  {
  }

  lemma {:induction false} PassedHolds(r: Rules, declared: set<string>, e: Env)
    requires Unique(e)
    ensures Unique(Passed(r, declared, e))
    ensures forall b :: b in Passed(r, declared, e) ==> b in e && b.value.Some? && Passes(r, declared, b.name)
  {
    if e != [] {
      HeadUnique(e);
      PassedHolds(r, declared, e[1..]);
    }
  }

  lemma {:induction false} GetPassed(r: Rules, declared: set<string>, e: Env, name: string)
    requires Unique(e)
    ensures Get(Passed(r, declared, e), name) == if Passes(r, declared, name) then Get(e, name) else None
  {
    if e != [] {
      HeadUnique(e);
      var rest := Passed(r, declared, e[1..]);
      GetPassed(r, declared, e[1..], name);
      PassedHolds(r, declared, e[1..]);
      if e[0].name == name { GetAbsent(rest, name); }
      assert ([e[0]] + rest)[1..] == rest;
    }
  }

  lemma {:induction false} GetAbsent(e: Env, name: string)
    ensures (forall b :: b in e ==> b.name != name) ==> Get(e, name) == None
    ensures Get(e, name).Some? ==> Binding(name, Get(e, name)) in e
  {
    if e != [] { GetAbsent(e[1..], name); }
  }

  lemma {:induction false} GetOnly(e: Env, b: Binding)
    requires Unique(e) && b in e
    ensures Get(e, b.name) == b.value
  {
    if b != e[0] {
      assert e == [e[0]] + e[1..];
      GetOnly(e[1..], b);
      var i :| 0 <= i < |e| && e[i] == b;
      assert e[0].name != e[i].name;
    }
  }

  lemma {:induction false} GetWithPath(r: Rules, forge: Option<string>, e: Env, name: string)
    ensures |WithPath(r, forge, e)| == |e| && forall i :: 0 <= i < |e| ==> WithPath(r, forge, e)[i].name == e[i].name
    ensures forall i :: 0 <= i < |e| ==> WithPath(r, forge, e)[i].value.Some? == e[i].value.Some?
    ensures Get(WithPath(r, forge, e), name) == var v := Get(e, name);
      if name == PATH && v.Some? then Some(ClearPath(r, forge, v.value)) else v
  {
    if e != [] { GetWithPath(r, forge, e[1..], name); }
  }

  /** What the check sees, name by name. */
  lemma GetChecked(r: Rules, e: Env, name: string)
    requires Unique(e)
    ensures Unique(Checked(r, e))
    ensures Get(Checked(r, e), name) == if Passes(r, Declared(r, e), name) then Seen(r, e, name) else None
    ensures Get(Checked(r, e), name).Some? <==>
      && Get(e, name).Some? && !(PUBLICATION <= name)
      && (r.keyed(name) || r.transport(name) || r.root(name) || name in Declared(r, e))
    ensures Get(Checked(r, e), name).Some? && name != PATH ==> Get(Checked(r, e), name) == Get(e, name)
    ensures forall b :: b in Checked(r, e) ==> b.value.Some?
  {
    GetPassed(r, Declared(r, e), e, name);
    PassedHolds(r, Declared(r, e), e);
    GetWithPath(r, Forge(r, e), Passed(r, Declared(r, e), e), name);
  }

  lemma {:induction false} ClearKeeps(r: Rules, forge: Option<string>, entries: seq<string>)
    ensures forall s :: s in Clear(r, forge, entries) <==> s in entries && !Shadows(r, forge, s)
  {
    if entries != [] {
      ClearKeeps(r, forge, entries[1..]);
      assert entries == [entries[0]] + entries[1..];
    }
  }

  lemma {:induction false} ClearNothing(r: Rules, forge: Option<string>, entries: seq<string>)
    requires forall s :: s in entries ==> !Shadows(r, forge, s)
    ensures Clear(r, forge, entries) == entries
  {
    if entries != [] { ClearNothing(r, forge, entries[1..]); }
  }

  /** These entries are, in order, those of a search path that shadow nothing; `places` are where they stand. An entry
      shadows if it is not empty and leads to the agent's forge directory or to a directory of shims. */
  ghost predicate Unshadowed(r: Rules, e: Env, entries: seq<string>, kept: seq<string>, places: seq<nat>) {
    && |places| == |kept|
    && (forall a :: 0 <= a < |places| ==> places[a] < |entries| && kept[a] == entries[places[a]])
    && (forall a, b :: 0 <= a < b < |places| ==> places[a] < places[b])
    && forall i: nat :: i < |entries| ==> (i in places <==>
         entries[i] == "" || !(ForgeIs(r, e, r.resolve(entries[i])) || r.shim(r.resolve(entries[i]))))
  }

  /** The forge directory is set, to this. */
  predicate ForgeIs(r: Rules, e: Env, dir: string) {
    Get(e, FORGE_DIR).Some? && Get(e, FORGE_DIR).value != "" && dir == r.resolve(Get(e, FORGE_DIR).value)
  }

  lemma ShadowsIff(r: Rules, e: Env, entry: string)
    ensures Shadows(r, Forge(r, e), entry)
      <==> entry != "" && (ForgeIs(r, e, r.resolve(entry)) || r.shim(r.resolve(entry)))
  {
  }

  lemma OneShadows(r: Rules, e: Env, entries: seq<string>, kept: seq<string>, places: seq<nat>, last: string)
    requires Unshadowed(r, e, entries, kept, places) && Shadows(r, Forge(r, e), last)
    ensures Unshadowed(r, e, entries + [last], kept, places)
  {
    ShadowsIff(r, e, last);
  }

  lemma OneStays(r: Rules, e: Env, entries: seq<string>, kept: seq<string>, places: seq<nat>, last: string)
    requires Unshadowed(r, e, entries, kept, places) && !Shadows(r, Forge(r, e), last)
    ensures Unshadowed(r, e, entries + [last], kept + [last], places + [|entries|])
  {
    ShadowsIff(r, e, last);
    var more := places + [|entries|];
    assert more[|places|] == |entries|;
    forall i: nat | i < |entries| ensures i in more <==> i in places { }
  }

  lemma {:induction false} ClearSelects(r: Rules, e: Env, entries: seq<string>) returns (places: seq<nat>)
    ensures Unshadowed(r, e, entries, Clear(r, Forge(r, e), entries), places)
    decreases |entries|
  {
    if entries == [] {
      places := [];
    } else {
      var n := |entries| - 1;
      places := ClearSelects(r, e, entries[..n]);
      ClearOn(r, Forge(r, e), entries[..n], entries[n]);
      assert entries == entries[..n] + [entries[n]];
      var kept := Clear(r, Forge(r, e), entries[..n]);
      if Shadows(r, Forge(r, e), entries[n]) {
        OneShadows(r, e, entries[..n], kept, places, entries[n]);
        assert kept + [] == kept;
      } else {
        OneStays(r, e, entries[..n], kept, places, entries[n]);
        places := places + [n];
      }
    }
  }

  lemma {:induction false} ClearOn(r: Rules, forge: Option<string>, entries: seq<string>, last: string)
    ensures Clear(r, forge, entries + [last])
      == Clear(r, forge, entries) + if Shadows(r, forge, last) then [] else [last]
  {
    var all := entries + [last];
    if entries == [] {
      assert all[1..] == [];
    } else {
      assert all[1..] == entries[1..] + [last];
      ClearOn(r, forge, entries[1..], last);
    }
  }

  /** The search path of a check: that of the environment, in order, without the entries that shadow. */
  lemma PathChecked(r: Rules, e: Env) returns (kept: seq<string>, places: seq<nat>)
    requires Sane(r) && Unique(e) && Get(e, PATH).Some?
    ensures Unshadowed(r, e, SplitOn(Get(e, PATH).value, ':'), kept, places)
    ensures Get(Checked(r, e), PATH) == Some(JoinWith(kept, ':'))
  {
    var entries := SplitOn(Get(e, PATH).value, ':');
    GetChecked(r, e, PATH);
    assert |PATH| < |PUBLICATION|;
    kept := Clear(r, Forge(r, e), entries);
    places := ClearSelects(r, e, entries);
  }

  /** Clearing a cleared path changes nothing, whether or not the forge directory is still named. */
  lemma ClearTwice(r: Rules, forge: Option<string>, again: Option<string>, path: string)
    requires again == forge || again == None
    ensures ClearPath(r, again, ClearPath(r, forge, path)) == ClearPath(r, forge, path)
  {
    var kept := Clear(r, forge, SplitOn(path, ':'));
    ClearKeeps(r, forge, SplitOn(path, ':'));
    SplitWhole(path, ':');
    if kept == [] {
      assert SplitOn(JoinWith(kept, ':'), ':') == [""];
      ClearNothing(r, again, [""]);
    } else {
      SplitJoin(kept, ':');
      ClearNothing(r, again, kept);
    }
  }

  lemma DeclaredAgain(r: Rules, e: Env)
    requires Sane(r) && Unique(e)
    ensures Declared(r, Checked(r, e)) == Declared(r, e)
    ensures Forge(r, Checked(r, e)) == Forge(r, e) || Forge(r, Checked(r, e)) == None
  {
    GetChecked(r, e, CHECK_ENV);
    GetChecked(r, e, FORGE_DIR);
    assert |CHECK_ENV| < |PUBLICATION|;
    assert CHECK_ENV != PATH && FORGE_DIR != PATH by { assert |PATH| == 4; }
  }

  lemma {:induction false} PassedAll(r: Rules, declared: set<string>, e: Env)
    requires forall b :: b in e ==> b.value.Some? && Passes(r, declared, b.name)
    ensures Passed(r, declared, e) == e
  {
    if e != [] { PassedAll(r, declared, e[1..]); }
  }

  lemma {:induction false} WithPathTwice(r: Rules, forge: Option<string>, again: Option<string>, e: Env)
    requires again == forge || again == None
    ensures WithPath(r, again, WithPath(r, forge, e)) == WithPath(r, forge, e)
  {
    if e != [] {
      WithPathTwice(r, forge, again, e[1..]);
      if e[0].name == PATH && e[0].value.Some? { ClearTwice(r, forge, again, e[0].value.value); }
    }
  }

  /** A check environment is its own check environment. */
  lemma CheckedTwice(r: Rules, e: Env)
    requires Sane(r) && Unique(e)
    ensures Checked(r, Checked(r, e)) == Checked(r, e)
  {
    var d, passed := Declared(r, e), Passed(r, Declared(r, e), e);
    DeclaredAgain(r, e);
    PassedHolds(r, d, e);
    GetWithPath(r, Forge(r, e), passed, "");
    forall b | b in Checked(r, e) ensures b.value.Some? && Passes(r, d, b.name) {
      var i :| 0 <= i < |passed| && Checked(r, e)[i] == b;
      assert passed[i] in passed;
    }
    PassedAll(r, d, Checked(r, e));
    WithPathTwice(r, Forge(r, e), Forge(r, Checked(r, e)), passed);
  }
}
