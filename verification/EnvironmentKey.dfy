/** The fingerprint of a check environment, with the hash read as its injective input. */
module EnvironmentKey {
  import opened Common
  import opened Ordering
  import opened CheckEnvironment

  type Input = (string, string)

  /** What the key takes from outside the environment: the bytes behind a Git configuration path, the host epoch. */
  datatype World = World(bytes: string -> string, epoch: Option<string> -> string)

  datatype Key = Key(inputs: seq<Input>, identity: set<string>, global: Option<string>, system: Option<string>,
                     epoch: string)

  /** Names whose value enters the key. */
  predicate Counts(r: Rules, name: string) {
    && !r.root(name) && !r.bookkeeping(name) && !r.identity(name) && (r.keyed(name) || !r.transport(name))
    && !r.unkeyable(name) && name != FORGE_DIR
  }

  function Inputs(r: Rules, forge: Option<string>, e: Env): seq<Input> {
    if e == [] then []
    else
      var b, rest := e[0], Inputs(r, forge, e[1..]);
      if b.value.Some? && Counts(r, b.name) then
        [(b.name, if b.name == PATH then ClearPath(r, forge, b.value.value) else b.value.value)] + rest
      else rest
  }

  function Identity(r: Rules, e: Env): set<string> {
    set b | b in e && r.identity(b.name) && b.value.Some? :: b.name
  }

  function Configuration(w: World, path: Option<string>): Option<string> {
    if path.Some? && path.value != "" then Some(w.bytes(path.value)) else None
  }

  function ByName(r: Rules): (Input, Input) -> bool { (a: Input, b: Input) => r.compare(a.0, b.0) }

  function Sorting(r: Rules, e: Env): seq<Input> { Sort(ByName(r), Inputs(r, Forge(r, e), e)) }

  lemma ByNameOrder(r: Rules)
    requires Sane(r)
    ensures TotalPreorder(ByName(r))
  {
    var le := ByName(r);
    forall a: Input, b: Input ensures le(a, b) || le(b, a) { assert r.compare(a.0, b.0) || r.compare(b.0, a.0); }
    forall a, b, c | le(a, b) && le(b, c) ensures le(a, c) { assert r.compare(a.0, b.0) && r.compare(b.0, c.0); }
  }

  function Fingerprint(r: Rules, w: World, e: Env): Key {
    Key(Sorting(r, e), Identity(r, e),
        Configuration(w, Get(e, GIT_GLOBAL)), Configuration(w, Get(e, GIT_SYSTEM)), w.epoch(Get(e, BOUNDARY)))
  }

  lemma {:induction false} InputsHold(r: Rules, forge: Option<string>, e: Env)
    requires Unique(e)
    ensures NoRepeat(Inputs(r, forge, e))
    ensures forall i, j :: 0 <= i < j < |Inputs(r, forge, e)| ==> Inputs(r, forge, e)[i].0 != Inputs(r, forge, e)[j].0
    ensures forall p :: p in Inputs(r, forge, e) ==> exists b :: b in e && b.name == p.0
  {
    if e != [] {
      HeadUnique(e);
      InputsHold(r, forge, e[1..]);
      assert e == [e[0]] + e[1..];
    }
  }

  lemma {:induction false} InputIff(r: Rules, forge: Option<string>, e: Env, name: string, value: string)
    requires Unique(e)
    ensures (name, value) in Inputs(r, forge, e)
      <==> (&& Counts(r, name) && Get(e, name).Some?
            && value == if name == PATH then ClearPath(r, forge, Get(e, name).value) else Get(e, name).value)
  {
    if e != [] {
      HeadUnique(e);
      InputIff(r, forge, e[1..], name, value);
      GetAbsent(e[1..], e[0].name);
    }
  }

  /** Names whose value reaches a check and its key. */
  predicate Reaches(r: Rules, declared: set<string>, name: string) {
    Passes(r, declared, name) && Counts(r, name)
  }

  lemma CheckedInput(r: Rules, e: Env, name: string, value: string)
    requires Sane(r) && Unique(e)
    ensures (name, value) in Inputs(r, Forge(r, Checked(r, e)), Checked(r, e))
      <==> Reaches(r, Declared(r, e), name) && Seen(r, e, name) == Some(value)
    ensures (name, value) in Inputs(r, Forge(r, Checked(r, e)), Checked(r, e))
      <==> Get(Checked(r, e), name) == Some(value) && name != FORGE_DIR
           && !(r.root(name) || r.bookkeeping(name) || r.identity(name) || r.unkeyable(name))
           && (r.transport(name) ==> r.keyed(name))
  {
    var c := Checked(r, e);
    GetChecked(r, e, name);
    InputIff(r, Forge(r, c), c, name, value);
    DeclaredAgain(r, e);
    if name == PATH && Get(e, PATH).Some? { ClearTwice(r, Forge(r, e), Forge(r, c), Get(e, PATH).value); }
  }

  /** A commit identity enters any key by its presence. */
  lemma IdentityIff(r: Rules, e: Env, name: string)
    requires Unique(e)
    ensures name in Identity(r, e) <==> r.identity(name) && Get(e, name).Some?
  {
    GetAbsent(e, name);
    if name in Identity(r, e) {
      var b :| b in e && b.name == name && b.value.Some?;
      GetOnly(e, b);
    }
  }

  /** Git configuration files count alike if neither is named, or if both are and have the same bytes. */
  lemma ConfigurationIff(w1: World, a: Option<string>, w2: World, b: Option<string>)
    ensures Configuration(w1, a) == Configuration(w2, b) <==>
      if a == None || a == Some("") then b == None || b == Some("")
      else b.Some? && b.value != "" && w1.bytes(a.value) == w2.bytes(b.value)
  {
  }

  lemma CheckedIdentity(r: Rules, e: Env, name: string)
    requires Unique(e)
    ensures name in Identity(r, Checked(r, e))
      <==> r.identity(name) && Passes(r, Declared(r, e), name) && Get(e, name).Some?
  {
    var c := Checked(r, e);
    GetChecked(r, e, name);
    GetAbsent(c, name);
    if name in Identity(r, c) {
      var b :| b in c && b.name == name && b.value.Some?;
      GetOnly(c, b);
    }
  }

  /** The two environments agree on everything a check can be told apart by. */
  ghost predicate Agree(r: Rules, w1: World, e1: Env, w2: World, e2: Env, declared: set<string>) {
    && (forall n :: Reaches(r, declared, n) ==> Seen(r, e1, n) == Seen(r, e2, n))
    && (forall n :: r.identity(n) && Passes(r, declared, n) ==> Get(e1, n).Some? == Get(e2, n).Some?)
    && Configuration(w1, Get(e1, GIT_GLOBAL)) == Configuration(w2, Get(e2, GIT_GLOBAL))
    && Configuration(w1, Get(e1, GIT_SYSTEM)) == Configuration(w2, Get(e2, GIT_SYSTEM))
    && w1.epoch(Get(e1, BOUNDARY)) == w2.epoch(Get(e2, BOUNDARY))
  }

  /** No two different names that reach the key compare equal. */
  ghost predicate NoTies(r: Rules, declared: set<string>, e: Env) {
    forall m, n | Reaches(r, declared, m) && Reaches(r, declared, n) && Get(e, m).Some? && Get(e, n).Some? ::
      r.compare(m, n) && r.compare(n, m) ==> m == n
  }

  lemma SameInputs(r: Rules, e1: Env, e2: Env)
    requires Sane(r) && Unique(e1) && Unique(e2) && Declared(r, e1) == Declared(r, e2) && NoTies(r, Declared(r, e1), e1)
    ensures Sorting(r, Checked(r, e1)) == Sorting(r, Checked(r, e2))
      <==> forall n :: Reaches(r, Declared(r, e1), n) ==> Seen(r, e1, n) == Seen(r, e2, n)
  {
    var d, c1, c2 := Declared(r, e1), Checked(r, e1), Checked(r, e2);
    var s, t := Inputs(r, Forge(r, c1), c1), Inputs(r, Forge(r, c2), c2);
    GetChecked(r, e1, "");
    GetChecked(r, e2, "");
    InputsHold(r, Forge(r, c1), c1);
    InputsHold(r, Forge(r, c2), c2);
    forall p: Input
      ensures p in s <==> Reaches(r, d, p.0) && Seen(r, e1, p.0) == Some(p.1)
      ensures p in t <==> Reaches(r, d, p.0) && Seen(r, e2, p.0) == Some(p.1)
    {
      CheckedInput(r, e1, p.0, p.1);
      CheckedInput(r, e2, p.0, p.1);
    }
    ByNameOrder(r);
    SortCanonical(ByName(r), s, t);
    if forall x :: x in s <==> x in t {
      forall n | Reaches(r, d, n) ensures Seen(r, e1, n) == Seen(r, e2, n) {
        if Seen(r, e1, n).Some? { assert (n, Seen(r, e1, n).value) in s; }
        if Seen(r, e2, n).Some? { assert (n, Seen(r, e2, n).value) in t; }
      }
    }
  }

  lemma CheckedOutside(r: Rules, e: Env)
    requires Sane(r) && Unique(e)
    ensures Get(Checked(r, e), GIT_GLOBAL) == Get(e, GIT_GLOBAL)
    ensures Get(Checked(r, e), GIT_SYSTEM) == Get(e, GIT_SYSTEM)
    ensures Get(Checked(r, e), BOUNDARY) == Get(e, BOUNDARY)
  {
    GetChecked(r, e, GIT_GLOBAL);
    GetChecked(r, e, GIT_SYSTEM);
    GetChecked(r, e, BOUNDARY);
    assert |GIT_GLOBAL| < |PUBLICATION| && |GIT_SYSTEM| < |PUBLICATION| && |BOUNDARY| < |PUBLICATION|;
    assert |PATH| == 4 && |GIT_GLOBAL| == 17 && |GIT_SYSTEM| == 17 && |BOUNDARY| == 18;
  }

  /** Session variables and order never matter: two environments with the same declared list have the same key
      exactly when they agree on what reaches a check. */
  lemma SameKeyIff(r: Rules, w1: World, e1: Env, w2: World, e2: Env)
    requires Sane(r) && Unique(e1) && Unique(e2) && Declared(r, e1) == Declared(r, e2) && NoTies(r, Declared(r, e1), e1)
    ensures Fingerprint(r, w1, Checked(r, e1)) == Fingerprint(r, w2, Checked(r, e2))
      <==> Agree(r, w1, e1, w2, e2, Declared(r, e1))
  {
    var c1, c2 := Checked(r, e1), Checked(r, e2);
    SameInputs(r, e1, e2);
    CheckedOutside(r, e1);
    CheckedOutside(r, e2);
    SameIdentity(r, e1, e2);
  }

  lemma SameIdentity(r: Rules, e1: Env, e2: Env)
    requires Unique(e1) && Unique(e2) && Declared(r, e1) == Declared(r, e2)
    ensures Identity(r, Checked(r, e1)) == Identity(r, Checked(r, e2)) <==>
      forall n :: r.identity(n) && Passes(r, Declared(r, e1), n) ==> Get(e1, n).Some? == Get(e2, n).Some?
  {
    var i, j := Identity(r, Checked(r, e1)), Identity(r, Checked(r, e2));
    forall n
      ensures n in i <==> r.identity(n) && Passes(r, Declared(r, e1), n) && Get(e1, n).Some?
      ensures n in j <==> r.identity(n) && Passes(r, Declared(r, e1), n) && Get(e2, n).Some?
    {
      CheckedIdentity(r, e1, n);
      CheckedIdentity(r, e2, n);
    }
  }

  /** Why ties are excluded: two inputs that tie leave the order they arrived in inside the key. */
  lemma TieChangesKey(r: Rules, w: World, e1: Env, e2: Env, a: Input, b: Input)
    requires Sane(r) && Unique(e1) && Unique(e2) && a.0 != b.0 && r.compare(a.0, b.0) && r.compare(b.0, a.0)
    requires Before(Inputs(r, Forge(r, e1), e1), a, b) && Before(Inputs(r, Forge(r, e2), e2), b, a)
    ensures Fingerprint(r, w, e1) != Fingerprint(r, w, e2)
  {
    InputsHold(r, Forge(r, e1), e1);
    InputsHold(r, Forge(r, e2), e2);
    ByNameOrder(r);
    TieShowsOrder(ByName(r), Inputs(r, Forge(r, e1), e1), Inputs(r, Forge(r, e2), e2), a, b);
  }

  const SOFT := '\U{AD}'

  /** A name without its soft hyphens, which the comparison of the source's locale ignores. */
  function Bare(s: string): string {
    if s == "" then "" else (if s[0] == SOFT then "" else [s[0]]) + Bare(s[1..])
  }

  predicate UpTo(a: string, b: string) {
    a == "" || (b != "" && (a[0] < b[0] || (a[0] == b[0] && UpTo(a[1..], b[1..]))))
  }

  lemma {:induction false} UpToTotal(a: string, b: string)
    ensures UpTo(a, b) || UpTo(b, a)
  {
    if a != "" && b != "" { UpToTotal(a[1..], b[1..]); }
  }

  lemma {:induction false} UpToOn(a: string, b: string, c: string)
    requires UpTo(a, b) && UpTo(b, c)
    ensures UpTo(a, c)
  {
    if a != "" && a[0] == b[0] == c[0] { UpToOn(a[1..], b[1..], c[1..]); }
  }

  function Locale(): (string, string) -> bool { (a: string, b: string) => UpTo(Bare(a), Bare(b)) }

  /** Every name is keyed, and names are compared as the locale does. */
  function Everything(): Rules {
    Rules(n => true, n => true, n => false, n => false, n => false, n => false, s => {}, s => s, s => false, Locale())
  }

  function Pair(a: Input, b: Input): Env { [Binding(a.0, Some(a.1)), Binding(b.0, Some(b.1))] }

  /** Two names that differ in a soft hyphen: the same bindings in another order have another key. */
  lemma SoftHyphenTies(w: World)
    ensures var r, a, b := Everything(), ("A", "1"), ("A\U{AD}", "2");
      Sane(r) && Fingerprint(r, w, Pair(a, b)) != Fingerprint(r, w, Pair(b, a))
  {
    BareNames();
    EqualNamesTie(w, ("A", "1"), ("A\U{AD}", "2"));
  }

  lemma BareNames()
    ensures Bare("A") == "A" == Bare("A\U{AD}")
  {
    assert "A\U{AD}"[1..] == "\U{AD}" && "\U{AD}"[1..] == "" && "A"[1..] == "";
    assert Bare("\U{AD}") == "";
  }

  lemma EqualNamesTie(w: World, a: Input, b: Input)
    requires a.0 != b.0 && Bare(a.0) == Bare(b.0)
    requires a.0 != PATH && b.0 != PATH && a.0 != FORGE_DIR && b.0 != FORGE_DIR
    ensures Sane(Everything()) && Fingerprint(Everything(), w, Pair(a, b)) != Fingerprint(Everything(), w, Pair(b, a))
  {
    var r := Everything();
    EverythingSane();
    TwoInputs(r, Pair(a, b), a, b);
    TwoInputs(r, Pair(b, a), b, a);
    UpToTotal(Bare(a.0), Bare(b.0));
    TieChangesKey(r, w, Pair(a, b), Pair(b, a), a, b);
  }

  lemma EverythingSane()
    ensures Sane(Everything())
  {
    var le := Locale();
    forall a, b ensures le(a, b) || le(b, a) { UpToTotal(Bare(a), Bare(b)); }
    forall a, b, c | le(a, b) && le(b, c) ensures le(a, c) { UpToOn(Bare(a), Bare(b), Bare(c)); }
  }

  lemma TwoInputs(r: Rules, e: Env, a: Input, b: Input)
    requires r == Everything() && e == Pair(a, b)
    requires a.0 != PATH && b.0 != PATH && a.0 != FORGE_DIR && b.0 != FORGE_DIR
    ensures Before(Inputs(r, Forge(r, e), e), a, b)
  {
    var forge := Forge(r, e);
    assert e[1..] == [e[1]] && e[1..][1..] == [];
    assert Inputs(r, forge, e[1..]) == [b];
    var all := Inputs(r, forge, e);
    assert all == [a] + [b] && all[0] == a && all[1] == b;
  }
}
