/** The lock-free inventory of obligations, read while importers move them. */
module Obligations {
  import opened Common

  type Id = nat
  type Name = nat

  /** A journal file; its identity changes with every write and is never used again. */
  datatype Journal = Journal(identity: nat, records: set<Id>)

  /** A journal an importer renamed for itself, and the records it has dealt with so far. */
  datatype Claim = Claim(file: Journal, handled: set<Id>)

  datatype State = State(
    pending: Option<Journal>, claims: map<Name, Claim>, directory: set<Id>, withdrawn: set<Id>,
    identities: nat, claimed: set<Name>, published: set<Id>)

  function Waiting(s: State): set<Id> { if s.pending.Some? then s.pending.value.records else {} }

  function Appended(s: State, o: Id): State {
    s.(pending := Some(Journal(s.identities, Waiting(s) + {o})), identities := s.identities + 1)
  }

  function Handle(s: State, n: Name, o: Id): State
    requires n in s.claims
  {
    s.(claims := s.claims[n := Claim(s.claims[n].file, s.claims[n].handled + {o})])
  }

  datatype Step =
    | Append(o: Id)                    // a refused record goes to the journal
    | Record(o: Id)                    // a record is written straight into the directory
    | Rename(n: Name)                  // an import claims the journal
    | TakeOver(m: Name, n: Name)       // an import claims what a dead one held
    | Publish(n: Name, o: Id)
    | Return(n: Name, o: Id)
    | Delete(n: Name)
    | Withdraw(o: Id)
    | Remove(o: Id)
    | Idle

  /** What importers may do next. Directory names, claim names and file identities never come back. */
  predicate Enabled(s: State, step: Step) {
    match step
    case Append(_) | Withdraw(_) | Idle => true
    case Record(o) => o !in s.published
    case Rename(n) => s.pending.Some? && n !in s.claimed
    case TakeOver(m, n) => m in s.claims && n !in s.claimed
    case Publish(n, o) => n in s.claims && o in s.claims[n].file.records && (o in s.directory || o !in s.published)
    case Return(n, o) => n in s.claims && o in s.claims[n].file.records
    case Delete(n) => n in s.claims && s.claims[n].file.records <= s.claims[n].handled + s.withdrawn
    case Remove(o) => o in s.withdrawn
  }

  function Take(s: State, step: Step): State
    requires Enabled(s, step)
  {
    match step
    case Append(o) => Appended(s, o)
    case Record(o) => s.(directory := s.directory + {o}, published := s.published + {o})
    case Rename(n) => s.(pending := None, claims := s.claims[n := Claim(s.pending.value, {})],
      claimed := s.claimed + {n})
    case TakeOver(m, n) =>
      s.(claims := (s.claims - {m})[n := Claim(s.claims[m].file, {})], claimed := s.claimed + {n})
    case Publish(n, o) => Handle(s, n, o).(directory := s.directory + {o}, published := s.published + {o})
    case Return(n, o) => Appended(Handle(s, n, o), o)
    case Delete(n) => s.(claims := s.claims - {n})
    case Withdraw(o) => s.(withdrawn := s.withdrawn + {o})
    case Remove(o) => s.(directory := s.directory - {o})
    case Idle => s
  }

  predicate Present(s: State, o: Id) {
    o in Waiting(s) || o in s.directory || exists n :: n in s.claims && o in s.claims[n].file.records
  }

  /** Somewhere an importer still has to move it from, or where it is to stay. */
  predicate Kept(s: State, o: Id) {
    || o in s.withdrawn || o in s.directory || o in Waiting(s)
    || exists n :: n in s.claims && o in s.claims[n].file.records && o !in s.claims[n].handled
  }

  /** What every state of a run satisfies. */
  ghost predicate Valid(s: State) {
    && (forall n :: n in s.claims ==> n in s.claimed && s.claims[n].file.identity < s.identities)
    && (s.pending.Some? ==> s.pending.value.identity < s.identities)
    && s.directory <= s.published
    && forall o :: Present(s, o) ==> Kept(s, o)
  }

  lemma TakeKeeps(s: State, step: Step, o: Id)
    requires Valid(s) && Enabled(s, step) && Kept(s, o)
    ensures Kept(Take(s, step), o)
  {
    var t := Take(s, step);
    if n :| n in s.claims && o in s.claims[n].file.records && o !in s.claims[n].handled {
      match step
      case TakeOver(m, k) => assert k in t.claims && (n == m || n in t.claims);
      case _ => assert n in t.claims || o in s.withdrawn;
    }
    if step.Rename? && o in Waiting(s) { assert step.n in t.claims && o in t.claims[step.n].file.records; }
  }

  lemma TakeValid(s: State, step: Step)
    requires Valid(s) && Enabled(s, step)
    ensures Valid(Take(s, step))
  {
    var t := Take(s, step);
    forall o | Present(t, o) ensures Kept(t, o) {
      if Present(s, o) { TakeKeeps(s, step, o); }
    }
  }

  /** A step that may be taken, and what it leads to. */
  ghost predicate Goes(s: State, step: Step, t: State) { Enabled(s, step) && t == Take(s, step) }

  /** A record's way: refused into an empty journal, claimed, claimed again after its importer died. It cannot be deleted
      with the claim before it is dealt with. */
  lemma IntoClaim(s: State, o: Id, n: Name, m: Name) returns (waiting: State, held: State, taken: State)
    requires Valid(s) && s.pending.None? && n != m && n !in s.claimed && m !in s.claimed && o !in s.withdrawn
    ensures Goes(s, Append(o), waiting) && Waiting(waiting) == {o}
    ensures waiting.directory == s.directory && waiting.claims == s.claims
    ensures Goes(waiting, Rename(n), held) && held.pending.None? && n in held.claims
    ensures held.claims[n].file.records == {o} && held.claims[n].handled == {} && held.claims - {n} == s.claims
    ensures !Enabled(held, Rename(n)) && !Enabled(waiting.(claimed := waiting.claimed + {n}), Rename(n))
    ensures Goes(held, TakeOver(n, m), taken) && n !in taken.claims && m in taken.claims
    ensures taken.claims[m].file == held.claims[n].file && taken.claims[m].handled == {}
    ensures !Enabled(taken, Delete(m)) && taken.directory == s.directory && taken.published == s.published
  {
    assert n !in s.claims && m !in s.claims;
    waiting := Take(s, Append(o));
    held := Take(waiting, Rename(n));
    taken := Take(held, TakeOver(n, m));
    assert held.claims - {n} == s.claims;
    assert o in taken.claims[m].file.records && o !in taken.claims[m].handled + taken.withdrawn;
  }

  /** From its claim: published into the directory, or returned to the journal, after which the claim may go. A record
      that was removed from the directory is not published again. */
  lemma OutOfClaim(s: State, m: Name, o: Id)
    requires Valid(s) && m in s.claims && s.claims[m].file.records == {o} && s.pending.None? && o !in s.withdrawn
    ensures Enabled(s, Publish(m, o)) <==> o in s.directory || o !in s.published
    ensures Enabled(s, Publish(m, o)) ==>
      var t := Take(s, Publish(m, o));
      && t.directory == s.directory + {o} && o in t.published && t.claims[m].handled == s.claims[m].handled + {o}
      && Enabled(t, Delete(m)) && m !in Take(t, Delete(m)).claims && o in Take(t, Delete(m)).directory
    ensures Enabled(s, Return(m, o))
    ensures var t := Take(s, Return(m, o));
      && Waiting(t) == {o} && t.directory == s.directory && t.claims[m].handled == s.claims[m].handled + {o}
      && Enabled(t, Delete(m))
  {
  }

  /** A record written straight into the directory stays there until it was withdrawn, and is then not written again. */
  lemma InAndOut(s: State, o: Id) returns (there: State, gone: State)
    requires Valid(s) && o !in s.published && o !in s.withdrawn
    ensures Goes(s, Record(o), there) && there.directory == s.directory + {o} && there.pending == s.pending
    ensures !Enabled(there, Remove(o)) && !Enabled(there, Record(o))
    ensures Enabled(there, Withdraw(o)) && Goes(Take(there, Withdraw(o)), Remove(o), gone)
    ensures gone.directory == s.directory && o in gone.withdrawn && !Enabled(gone, Record(o))
  {
    there := Take(s, Record(o));
    gone := Take(Take(there, Withdraw(o)), Remove(o));
    assert o !in s.directory;
  }
}
