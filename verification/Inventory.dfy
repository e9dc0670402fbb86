/** The reader: two collects of every place around one read, and when an accepted read is complete. */
module Inventory {
  import opened Common
  import opened Obligations

  /** A run of the importers, one state after another, each by one enabled step. */
  ghost predicate IsRun(run: nat -> State, steps: nat -> Step) {
    Valid(run(0)) && forall i: nat :: Moves(run, steps, i)
  }

  ghost predicate Moves(run: nat -> State, steps: nat -> Step, i: nat) {
    Enabled(run(i), steps(i)) && run(i + 1) == Take(run(i), steps(i))
  }

  lemma {:induction false} ValidAt(run: nat -> State, steps: nat -> Step, i: nat)
    requires IsRun(run, steps)
    ensures Valid(run(i))
  {
    if i > 0 {
      ValidAt(run, steps, i - 1);
      assert Moves(run, steps, i - 1);
      TakeValid(run(i - 1), steps(i - 1));
    }
  }

  lemma {:induction false} KeptLater(run: nat -> State, steps: nat -> Step, i: nat, j: nat, o: Id)
    requires IsRun(run, steps) && i <= j && Kept(run(i), o)
    ensures Kept(run(j), o)
    decreases j
  {
    if i < j {
      KeptLater(run, steps, i, j - 1, o);
      ValidAt(run, steps, j - 1);
      assert Moves(run, steps, j - 1);
      TakeKeeps(run(j - 1), steps(j - 1), o);
    }
  }

  /** A record in the directory stays there unless it is withdrawn. */
  lemma {:induction false} ListedLater(run: nat -> State, steps: nat -> Step, i: nat, j: nat, o: Id)
    requires IsRun(run, steps) && i <= j && o in run(i).directory && o !in run(j).withdrawn
    ensures o in run(j).directory
    decreases j
  {
    if i < j {
      assert Moves(run, steps, j - 1);
      ListedLater(run, steps, i, j - 1, o);
    }
  }

  lemma {:induction false} WithdrawnLater(run: nat -> State, steps: nat -> Step, i: nat, j: nat)
    requires IsRun(run, steps) && i <= j
    ensures run(i).withdrawn <= run(j).withdrawn && run(i).claimed <= run(j).claimed
    decreases j
  {
    if i < j {
      assert Moves(run, steps, j - 1);
      WithdrawnLater(run, steps, i, j - 1);
    }
  }

  /** A claim name that is gone stays gone. */
  lemma {:induction false} GoneForGood(run: nat -> State, steps: nat -> Step, i: nat, j: nat, n: Name)
    requires IsRun(run, steps) && i <= j && n in run(i).claimed && n !in run(i).claims
    ensures n !in run(j).claims
    decreases j
  {
    if i < j {
      assert Moves(run, steps, j - 1);
      WithdrawnLater(run, steps, i, j - 1);
      GoneForGood(run, steps, i, j - 1, n);
    }
  }

  /** A claim seen at both ends was there, with the same records, all along. */
  lemma {:induction false} ClaimThroughout(run: nat -> State, steps: nat -> Step, i: nat, j: nat, k: nat, n: Name)
    requires IsRun(run, steps) && i <= j <= k && n in run(i).claims && n in run(k).claims
    ensures n in run(j).claims && run(j).claims[n].file == run(i).claims[n].file
    decreases j
  {
    ValidAt(run, steps, i);
    WithdrawnLater(run, steps, i, j);
    if n !in run(j).claims { GoneForGood(run, steps, j, k, n); }
    if i < j {
      ClaimThroughout(run, steps, i, j - 1, k, n);
      ValidAt(run, steps, j - 1);
      assert Moves(run, steps, j - 1);
    }
  }

  /** The journal's identity was spent once another file, or none, stands in its place. */
  predicate Spent(s: State, identity: nat) {
    identity < s.identities && (s.pending.None? || s.pending.value.identity != identity)
  }

  lemma {:induction false} SpentForGood(run: nat -> State, steps: nat -> Step, i: nat, j: nat, identity: nat)
    requires IsRun(run, steps) && i <= j && Spent(run(i), identity)
    ensures Spent(run(j), identity)
    decreases j
  {
    if i < j {
      assert Moves(run, steps, j - 1);
      SpentForGood(run, steps, i, j - 1, identity);
    }
  }

  function IdentityOf(s: State): Option<nat> { if s.pending.Some? then Some(s.pending.value.identity) else None }

  /** A journal seen with one identity at both ends was the same file, unchanged, all along. */
  lemma {:induction false} JournalThroughout(run: nat -> State, steps: nat -> Step, i: nat, j: nat, k: nat)
    requires IsRun(run, steps) && i <= j <= k && run(i).pending.Some? && IdentityOf(run(i)) == IdentityOf(run(k))
    ensures run(j).pending == run(i).pending
    decreases j
  {
    if i < j {
      JournalThroughout(run, steps, i, j - 1, k);
      assert Moves(run, steps, j - 1);
      ValidAt(run, steps, j - 1);
      var v := run(i).pending.value.identity;
      if Spent(run(j), v) { SpentForGood(run, steps, j, k, v); }
    }
  }

  /** The moments of one round: each collect lists the claims, looks at them, lists the directory and looks at the
      journal last; the read between them takes the journal, each listed claim, and the directory. */
  datatype Round = Round(
    claims: nat, directory: nat, journal: nat,
    readJournal: nat, readClaim: Name -> nat, readDirectory: nat,
    claims2: nat, directory2: nat, journal2: nat)

  ghost predicate InOrder(r: Round) {
    && r.claims <= r.directory <= r.journal <= r.readJournal <= r.readDirectory
    && (forall n :: r.readJournal <= r.readClaim(n) <= r.readDirectory)
    && r.readDirectory <= r.claims2 <= r.directory2 <= r.journal2
  }

  /** The two collects agree on the claims, the directory names and the journal. (The code compares the claims'
      identities too; a claim's file never changes under its name, so that adds nothing.) */
  predicate Accepted(run: nat -> State, r: Round) {
    && run(r.claims).claims.Keys == run(r.claims2).claims.Keys
    && run(r.directory).directory == run(r.directory2).directory
    && IdentityOf(run(r.journal)) == IdentityOf(run(r.journal2))
  }

  /** Whether the read met this record. */
  predicate Read(run: nat -> State, r: Round, o: Id) {
    || o in Waiting(run(r.readJournal))
    || (exists n :: n in run(r.claims).claims && n in run(r.readClaim(n)).claims
          && o in run(r.readClaim(n)).claims[n].file.records)
    || o in run(r.readDirectory).directory
  }

  /** Everything present when the first collect finished was read or has been withdrawn. */
  ghost predicate Complete(run: nat -> State, r: Round) {
    forall o :: Present(run(r.journal), o) ==> Read(run, r, o) || o in run(r.journal2).withdrawn
  }

  /** No import claims the journal between a collect's listing of claims and its look at the journal. */
  ghost predicate Still(steps: nat -> Step, from: nat, until: nat) {
    forall i: nat :: from <= i < until ==> !steps(i).Rename?
  }

  lemma ListedClaimRead(run: nat -> State, steps: nat -> Step, r: Round, at: nat, n: Name, o: Id)
    requires IsRun(run, steps) && InOrder(r) && Accepted(run, r) && r.claims <= at <= r.claims2
    requires n in run(r.claims).claims && n in run(at).claims && o in run(at).claims[n].file.records
    ensures Read(run, r, o)
  {
    ClaimThroughout(run, steps, r.claims, at, r.claims2, n);
    ClaimThroughout(run, steps, r.claims, r.readClaim(n), r.claims2, n);
  }

  lemma DirectoryRead(run: nat -> State, steps: nat -> Step, r: Round, at: nat, o: Id)
    requires IsRun(run, steps) && InOrder(r) && Accepted(run, r) && at <= r.directory2
    requires o in run(at).directory && o !in run(r.journal2).withdrawn
    ensures Read(run, r, o)
  {
    WithdrawnLater(run, steps, r.readDirectory, r.journal2);
    WithdrawnLater(run, steps, r.directory2, r.journal2);
    ListedLater(run, steps, at, r.directory2, o);
    ListedLater(run, steps, r.directory, r.readDirectory, o);
  }

  lemma JournalRead(run: nat -> State, steps: nat -> Step, r: Round, o: Id)
    requires IsRun(run, steps) && InOrder(r) && Accepted(run, r)
    requires o in Waiting(run(r.journal)) || o in Waiting(run(r.journal2))
    ensures Read(run, r, o)
  {
    JournalThroughout(run, steps, r.journal, r.readJournal, r.journal2);
    JournalThroughout(run, steps, r.journal, r.journal2, r.journal2);
  }

  /** While no import claims the journal, a record waiting in it goes on waiting. */
  lemma {:induction false} WaitsOn(run: nat -> State, steps: nat -> Step, i: nat, j: nat, o: Id)
    requires IsRun(run, steps) && i <= j && Still(steps, i, j) && o in Waiting(run(i))
    ensures o in Waiting(run(j))
    decreases j
  {
    if i < j {
      assert Moves(run, steps, j - 1);
      WaitsOn(run, steps, i, j - 1, o);
    }
  }

  /** While no import claims the journal, what a new claim holds an older one held. */
  lemma {:induction false} ClaimedBefore(run: nat -> State, steps: nat -> Step, i: nat, j: nat, n: Name)
    requires IsRun(run, steps) && i <= j && Still(steps, i, j) && n in run(j).claims
    ensures exists m ::
      m in run(i).claims && run(i).claims[m].file == run(j).claims[n].file && (m == n || m !in run(j).claims)
    decreases j
  {
    if i < j {
      assert Moves(run, steps, j - 1);
      var step := steps(j - 1);
      var k := if step.TakeOver? && step.n == n then step.m else n;
      assert k in run(j - 1).claims && run(j - 1).claims[k].file == run(j).claims[n].file;
      ClaimedBefore(run, steps, i, j - 1, k);
      var m :| m in run(i).claims && run(i).claims[m].file == run(j - 1).claims[k].file
        && (m == k || m !in run(j - 1).claims);
      ValidAt(run, steps, i);
      WithdrawnLater(run, steps, i, j - 1);
      if m !in run(j - 1).claims { GoneForGood(run, steps, j - 1, j, m); }
    }
  }

  /** Case: the second collect saw no claim of the journal go by. */
  lemma StillSecond(run: nat -> State, steps: nat -> Step, r: Round, o: Id)
    requires IsRun(run, steps) && InOrder(r) && Accepted(run, r) && Still(steps, r.claims2, r.journal2)
    requires Present(run(r.journal), o) && o !in run(r.journal2).withdrawn
    ensures Read(run, r, o)
  {
    ValidAt(run, steps, r.journal);
    KeptLater(run, steps, r.journal, r.claims2, o);
    WithdrawnLater(run, steps, r.claims2, r.journal2);
    var s := run(r.claims2);
    if o in s.directory {
      DirectoryRead(run, steps, r, r.claims2, o);
    } else if o in Waiting(s) {
      WaitsOn(run, steps, r.claims2, r.journal2, o);
      JournalRead(run, steps, r, o);
    } else {
      var n :| n in s.claims && o in s.claims[n].file.records;
      assert n in s.claims.Keys;
      ListedClaimRead(run, steps, r, r.claims2, n, o);
    }
  }

  /** Case: the first collect saw none. */
  lemma StillFirst(run: nat -> State, steps: nat -> Step, r: Round, o: Id)
    requires IsRun(run, steps) && InOrder(r) && Accepted(run, r) && Still(steps, r.claims, r.journal)
    requires Present(run(r.journal), o) && o !in run(r.journal2).withdrawn
    ensures Read(run, r, o)
  {
    var s := run(r.journal);
    if o in s.directory {
      DirectoryRead(run, steps, r, r.journal, o);
    } else if o in Waiting(s) {
      JournalRead(run, steps, r, o);
    } else {
      var n :| n in s.claims && o in s.claims[n].file.records;
      ClaimedBefore(run, steps, r.claims, r.journal, n);
      var m :| m in run(r.claims).claims && run(r.claims).claims[m].file == s.claims[n].file;
      assert m in run(r.claims2).claims.Keys;
      ListedClaimRead(run, steps, r, r.claims, m, o);
    }
  }

  /** An accepted round is complete if an import claimed the journal during at most one of its two collects. */
  lemma AcceptedComplete(run: nat -> State, steps: nat -> Step, r: Round)
    requires IsRun(run, steps) && InOrder(r) && Accepted(run, r)
    requires Still(steps, r.claims, r.journal) || Still(steps, r.claims2, r.journal2)
    ensures Complete(run, r)
  {
    forall o | Present(run(r.journal), o) && o !in run(r.journal2).withdrawn ensures Read(run, r, o) {
      if Still(steps, r.claims, r.journal) { StillFirst(run, steps, r, o); } else { StillSecond(run, steps, r, o); }
    }
  }

  /** With both windows open, a record can stay a claim ahead of the reader: it is claimed during the first collect,
      returned and claimed again during the second, and the two collects look alike. */
  function Ahead(i: nat): State {
    match i
    case 0 => State(Some(Journal(0, {7})), map[], {}, {}, 1, {}, {})
    case 1 => State(None, map[0 := Claim(Journal(0, {7}), {})], {}, {}, 1, {0}, {})
    case 2 => State(Some(Journal(1, {7})), map[0 := Claim(Journal(0, {7}), {7})], {}, {}, 2, {0}, {})
    case 3 => State(Some(Journal(1, {7})), map[], {}, {}, 2, {0}, {})
    case _ => State(None, map[1 := Claim(Journal(1, {7}), {})], {}, {}, 2, {0, 1}, {})
  }

  function AheadSteps(i: nat): Step {
    match i
    case 0 => Rename(0)
    case 1 => Return(0, 7)
    case 2 => Delete(0)
    case 3 => Rename(1)
    case _ => Idle
  }

  const LOOKS_STILL := Round(0, 1, 1, 1, (n: Name) => 1, 1, 3, 4, 4)

  lemma AheadMoves(i: nat)
    ensures Moves(Ahead, AheadSteps, i)
  {
    if i == 0 {
      assert Take(Ahead(0), Rename(0)) == Ahead(1);
    } else if i == 1 {
      assert Waiting(Ahead(1)) + {7} == {7} && {} + {7} == {7};
      assert Take(Ahead(1), Return(0, 7)).claims == Ahead(2).claims;
    } else if i == 2 {
      assert Take(Ahead(2), Delete(0)).claims == map[];
      assert Take(Ahead(2), Delete(0)) == Ahead(3);
    } else if i == 3 {
      assert Take(Ahead(3), Rename(1)) == Ahead(4);
    } else {
      assert Take(Ahead(4), Idle) == Ahead(4);
    }
  }

  lemma AheadMissed()
    ensures IsRun(Ahead, AheadSteps) && InOrder(LOOKS_STILL) && Accepted(Ahead, LOOKS_STILL)
    ensures !Complete(Ahead, LOOKS_STILL)
  {
    assert Valid(Ahead(0)) by {
      forall o | Present(Ahead(0), o) ensures Kept(Ahead(0), o) { }
    }
    forall i: nat ensures Moves(Ahead, AheadSteps, i) { AheadMoves(i); }
    assert 0 in Ahead(1).claims && 7 in Ahead(1).claims[0].file.records;
    assert Present(Ahead(1), 7) && !Read(Ahead, LOOKS_STILL, 7) && 7 !in Ahead(4).withdrawn;
  }

  /** Accepted rounds are complete in every run exactly when imports may not claim the journal during both collects. */
  lemma CompleteIff(openFirst: bool, openSecond: bool)
    ensures (forall run, steps, r ::
        IsRun(run, steps) && InOrder(r) && Accepted(run, r)
        && (openFirst || Still(steps, r.claims, r.journal)) && (openSecond || Still(steps, r.claims2, r.journal2))
        ==> Complete(run, r))
      <==> !(openFirst && openSecond)
  {
    if openFirst && openSecond {
      AheadMissed();
    } else {
      forall run, steps, r |
        IsRun(run, steps) && InOrder(r) && Accepted(run, r)
        && (openFirst || Still(steps, r.claims, r.journal)) && (openSecond || Still(steps, r.claims2, r.journal2))
        ensures Complete(run, r)
      {
        AcceptedComplete(run, steps, r);
      }
    }
  }

  const ROUNDS := 5

  /** What the read between two collects picks up. */
  function ReadSet(run: nat -> State, r: Round): set<Id> {
    Waiting(run(r.readJournal)) + run(r.readDirectory).directory
    + set n, o | n in run(r.claims).claims && n in run(r.readClaim(n)).claims
        && o in run(r.readClaim(n)).claims[n].file.records :: o
  }

  lemma ReadSetIs(run: nat -> State, r: Round, o: Id)
    ensures o in ReadSet(run, r) <==> Read(run, r, o)
  {
  }

  /** The inventory of one round has everything that was there when its first collect finished. */
  ghost predicate Whole(run: nat -> State, r: Round, records: set<Id>) {
    forall o :: Present(run(r.journal), o) ==> o in records || o in run(r.journal2).withdrawn
  }

  /** Rounds are tried until one sees the same places twice; the last one's records are kept, with a complaint, when
      none does. `complaints` is what each round's read could not make out. An accepted inventory without complaints
      is whole unless an import claimed the journal during both of its collects. */
  method ReadInventory(run: nat -> State, ghost steps: nat -> Step, rounds: seq<Round>, complaints: seq<seq<string>>)
    returns (records: set<Id>, unreadable: seq<string>, accepted: Option<nat>)
    requires |rounds| == |complaints| == ROUNDS && IsRun(run, steps) && forall r :: r in rounds ==> InOrder(r)
    ensures accepted.Some? ==> accepted.value < ROUNDS && Accepted(run, rounds[accepted.value])
    ensures accepted.Some? ==> forall i :: 0 <= i < accepted.value ==> !Accepted(run, rounds[i])
    ensures accepted.None? ==> forall r :: r in rounds ==> !Accepted(run, r)
    ensures unreadable == [] <==> accepted.Some? && complaints[accepted.value] == []
    ensures accepted.Some? ==> forall o :: o in records <==> Read(run, rounds[accepted.value], o)
    ensures accepted.Some? ==> var r := rounds[accepted.value];
      Still(steps, r.claims, r.journal) || Still(steps, r.claims2, r.journal2) ==> Whole(run, r, records)
  {
    records, unreadable := {}, [];
    for i := 0 to ROUNDS
      invariant forall k :: 0 <= k < i ==> !Accepted(run, rounds[k])
    {
      records, unreadable := ReadSet(run, rounds[i]), complaints[i];
      if Accepted(run, rounds[i]) {
        RoundIsWhole(run, steps, rounds[i]);
        forall o ensures o in records <==> Read(run, rounds[i], o) { ReadSetIs(run, rounds[i], o); }
        return records, unreadable, Some(i);
      }
    }
    unreadable := unreadable + ["interruption-obligations:moving"];
    accepted := None;
  }

  lemma RoundIsWhole(run: nat -> State, steps: nat -> Step, r: Round)
    requires IsRun(run, steps) && InOrder(r) && Accepted(run, r)
    ensures Still(steps, r.claims, r.journal) || Still(steps, r.claims2, r.journal2) ==> Whole(run, r, ReadSet(run, r))
  {
    if Still(steps, r.claims, r.journal) || Still(steps, r.claims2, r.journal2) {
      AcceptedComplete(run, steps, r);
      forall o | Present(run(r.journal), o) ensures o in ReadSet(run, r) || o in run(r.journal2).withdrawn {
        ReadSetIs(run, r, o);
      }
    }
  }
}
