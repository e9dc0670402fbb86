/** A checkout switch: once it has submitted a stop it owes a start, and its verdict speaks of the last sample. */
module SwitchRun {
  import opened Common

  datatype Jobs = NoJob | Queued | JobsUnread
  datatype Unit = Active | Stopped | Changing | UnitUnread

  datatype Role = Role(sha: string, healthy: bool)

  datatype Serving = Unseen | Serving(launcher: Role, viewer: Role, runtimeHost: Role, checks: seq<bool>)

  predicate Ready(s: Serving, target: string) {
    && s.Serving?
    && s.launcher == Role(target, true) && s.viewer == Role(target, true) && s.runtimeHost == Role(target, true)
    && forall c :: c in s.checks ==> c
  }

  predicate ReadyAt(e: Event, target: string) { e.ServingRead? && e.serving.Some? && Ready(e.serving.value, target) }

  datatype Outcome = Preserved | Recovered | Lost | Unknown

  /** The inventory of cut conversations: unread, read with gaps, or read whole. */
  datatype Inventory = Unread | Gaps | Whole

  datatype Verdict = Fail | NeedsDecision | Pass

  datatype Result = Result(verdict: Verdict, serving: Serving, protected: seq<Outcome>, inventory: Inventory)

  /** How the stop went, as the relocation records it. */
  datatype StopOutcome = Released | ReleasedAfterRetirement | NotReleased | UnprovenSurvivors | StopIncomplete

  /** What may raise, in order: the preflight; the publication, or the restart, by what is no ordinary exception; the
      publication by one that is; reading the placement before the stop; reading it after; a pause. */
  datatype Step = Preflight | Killed | Publication | Placement | Placing | Pause

  /** What passes between the switch and the outside, one event at a time. */
  datatype Event =
    | Stop | Start | JobsRead(jobs: Jobs) | UnitRead(unit: Unit)
    | ReleaseRead(released: bool) | SurvivorsRead(proven: Option<seq<bool>>) | Signals
    | OutcomesRead(outcomes: seq<Outcome>) | ServingRead(serving: Option<Serving>) | InventoryRead(inventory: Inventory)
    | Recovery(raised: bool) | Call(step: Step, raised: bool)

  const START_ATTEMPTS := 3

  /** Everything outside the switch. What it answers depends on the moment; what was asked is logged. */
  class World {
    const jobs: nat -> Jobs
    const unit: nat -> Unit
    const raises: nat -> bool
    const released: nat -> bool
    const survivors: nat -> Option<seq<bool>>
    const outcomes: nat -> seq<Outcome>
    const serving: nat -> Option<Serving>
    const inventory: nat -> Inventory
    /** How often a read is repeated before its time is up. */
    const patience: nat -> nat
    var log: seq<Event>

    constructor (jobs: nat -> Jobs, unit: nat -> Unit, raises: nat -> bool, released: nat -> bool,
                 survivors: nat -> Option<seq<bool>>, outcomes: nat -> seq<Outcome>, serving: nat -> Option<Serving>,
                 inventory: nat -> Inventory, patience: nat -> nat)
      ensures Valid() && log == []
      ensures this.jobs == jobs && this.unit == unit && this.raises == raises && this.released == released
      ensures this.survivors == survivors && this.outcomes == outcomes && this.serving == serving
      ensures this.inventory == inventory && this.patience == patience
    {
      this.jobs, this.unit, this.raises, this.released := jobs, unit, raises, released;
      this.survivors, this.outcomes, this.serving := survivors, outcomes, serving;
      this.inventory, this.patience, log := inventory, patience, [];
    }

    /** What was answered at a moment is what the environment holds for it. */
    predicate Answered(i: nat, e: Event) {
      match e
      case JobsRead(j) => j == jobs(i)
      case UnitRead(u) => u == unit(i)
      case ReleaseRead(r) => r == released(i)
      case SurvivorsRead(s) => s == survivors(i)
      case OutcomesRead(o) => o == outcomes(i)
      case ServingRead(s) => s == serving(i)
      case InventoryRead(v) => v == inventory(i)
      case Recovery(raised) => raised == raises(i)
      case Call(_, raised) => raised == raises(i)
      case _ => true
    }

    ghost predicate Valid()
      reads this
    {
      forall i :: 0 <= i < |log| ==> Answered(i, log[i])
    }

    method ReadJobs() returns (j: Jobs)
      requires Valid()
      modifies `log
      ensures Valid()
      ensures j == jobs(|old(log)|) && log == old(log) + [JobsRead(j)]
    {
      j := jobs(|log|);
      log := log + [JobsRead(j)];
    }

    method ReadUnit() returns (u: Unit)
      requires Valid()
      modifies `log
      ensures Valid()
      ensures u == unit(|old(log)|) && log == old(log) + [UnitRead(u)]
    {
      u := unit(|log|);
      log := log + [UnitRead(u)];
    }

    /** A call that may raise; what it was for is the event. */
    method Submit(e: Event) returns (raised: bool)
      requires Valid() && (e.Stop? || e.Start? || e.Signals?)
      modifies `log
      ensures Valid()
      ensures raised == raises(|old(log)|) && log == old(log) + [e]
    {
      raised := raises(|log|);
      log := log + [e];
    }

    method Make(step: Step) returns (raised: bool)
      requires Valid()
      modifies `log
      ensures Valid()
      ensures raised == raises(|old(log)|) && log == old(log) + [Call(step, raised)]
    {
      raised := raises(|log|);
      log := log + [Call(step, raised)];
    }

    method Recover() returns (raised: bool)
      requires Valid()
      modifies `log
      ensures Valid()
      ensures raised == raises(|old(log)|) && log == old(log) + [Recovery(raised)]
    {
      raised := raises(|log|);
      log := log + [Recovery(raised)];
    }

    method AwaitRelease() returns (r: bool)
      requires Valid()
      modifies `log
      ensures Valid()
      ensures log == old(log) + [ReleaseRead(r)]
    {
      r := released(|log|);
      log := log + [ReleaseRead(r)];
    }

    method ReadSurvivors() returns (s: Option<seq<bool>>)
      requires Valid()
      modifies `log
      ensures Valid()
      ensures log == old(log) + [SurvivorsRead(s)]
    {
      s := survivors(|log|);
      log := log + [SurvivorsRead(s)];
    }

    method ReadOutcomes() returns (o: seq<Outcome>)
      requires Valid()
      modifies `log
      ensures Valid()
      ensures log == old(log) + [OutcomesRead(o)]
    {
      o := outcomes(|log|);
      log := log + [OutcomesRead(o)];
    }

    method ReadServing() returns (s: Option<Serving>)
      requires Valid()
      modifies `log
      ensures Valid()
      ensures log == old(log) + [ServingRead(s)]
    {
      s := serving(|log|);
      log := log + [ServingRead(s)];
    }

    method ReadInventory() returns (i: Inventory)
      requires Valid()
      modifies `log
      ensures Valid()
      ensures log == old(log) + [InventoryRead(i)]
    {
      i := inventory(|log|);
      log := log + [InventoryRead(i)];
    }

    /** From some moment on the unit is active with no job, and nothing raises. */
    ghost predicate SettlesBy(moment: nat) {
      forall t: nat :: t >= moment ==> jobs(t) == NoJob && unit(t) == Active && !raises(t)
    }
  }

  /** An event that speaks of the unit's stop and start. */
  predicate OfUnit(e: Event) { e.Stop? || e.Start? || e.JobsRead? || e.UnitRead? }

  /** The last the log says of the unit is that it was active, read right after no job was queued. */
  predicate Checked(log: seq<Event>) {
    log != [] &&
    var n := |log| - 1;
    if OfUnit(log[n]) then log[n] == UnitRead(Active) && n > 0 && log[n - 1] == JobsRead(NoJob)
    else Checked(log[..n])
  }

  lemma {:induction false} CheckedMeans(log: seq<Event>)
    ensures Checked(log) <==> exists i :: ActiveAt(log, i)
  {
    if log != [] {
      var n := |log| - 1;
      CheckedMeans(log[..n]);
      if !OfUnit(log[n]) {
        if Checked(log[..n]) {
          var i :| ActiveAt(log[..n], i);
          assert ActiveAt(log, i);
        }
        forall i | ActiveAt(log, i) ensures ActiveAt(log[..n], i) { }
      } else if Checked(log) {
        assert ActiveAt(log, n - 1);
      }
    }
  }

  /** At this place no job was queued and then the unit was active, and no stop, start or other check follows. */
  ghost predicate ActiveAt(log: seq<Event>, i: int) {
    && 0 <= i < |log| - 1 && log[i] == JobsRead(NoJob) && log[i + 1] == UnitRead(Active)
    && forall j :: i + 2 <= j < |log| ==> !OfUnit(log[j])
  }

  lemma CheckedOn(log: seq<Event>, e: Event)
    ensures !OfUnit(e) ==> Checked(log + [e]) == Checked(log)
    ensures log != [] && log[|log| - 1] == JobsRead(NoJob) && e == UnitRead(Active) ==> Checked(log + [e])
  {
    assert (log + [e])[..|log|] == log;
  }

  /** Since a place of the log, its end is the first moment that could be `Checked`, and it is exactly if seen. */
  ghost predicate StopsAt(log: seq<Event>, from: nat, seen: bool) {
    from < |log| && (forall i :: from < i < |log| ==> !Checked(log[..i])) && (Checked(log) <==> seen)
  }

  lemma StopsLater(before: seq<Event>, after: seq<Event>, from: nat, seen: bool)
    requires from <= |before| && before <= after && StopsAt(after, |before|, seen)
    requires |before| == from || StopsAt(before, from, false)
    ensures StopsAt(after, from, seen)
  {
    forall i | from < i < |after| ensures !Checked(after[..i]) {
      if i == |before| {
        assert after[..i] == before;
      } else if i < |before| {
        assert after[..i] == before[..i];
      }
    }
  }

  lemma LaterStops(start: seq<Event>, before: seq<Event>, after: seq<Event>, seen: bool)
    requires Added(start, before, 0) && Added(before, after, 0) && StopsAt(after, |before|, seen)
    requires before == start || StopsAt(before, |start|, false)
    ensures Added(start, after, 0) && StopsAt(after, |start|, seen)
  {
    AddedOn(start, before, after, 0, 0);
    StopsLater(before, after, |start|, seen);
  }

  /** A look at the unit's jobs and, when none is queued, at the unit itself. */
  lemma LookStops(before: seq<Event>, j: Jobs, u: Unit)
    ensures StopsAt(before + [JobsRead(j)], |before|, false)
    ensures StopsAt(before + [JobsRead(NoJob), UnitRead(u)], |before|, u == Active)
  {
    var log := before + [JobsRead(NoJob), UnitRead(u)];
    assert log[..|before| + 1] == before + [JobsRead(NoJob)];
  }

  /** How many events of a kind the log holds. */
  function Count(log: seq<Event>, kind: Event -> bool): nat {
    if log == [] then 0 else Count(log[..|log| - 1], kind) + if kind(log[|log| - 1]) then 1 else 0
  }

  lemma CountOn(log: seq<Event>, e: Event, kind: Event -> bool)
    ensures Count(log + [e], kind) == Count(log, kind) + if kind(e) then 1 else 0
  {
    assert (log + [e])[..|log|] == log;
  }

  lemma {:induction false} CountSame(before: seq<Event>, after: seq<Event>, kind: Event -> bool)
    requires before <= after && forall i :: |before| <= i < |after| ==> !kind(after[i])
    ensures Count(after, kind) == Count(before, kind)
    decreases |after|
  {
    if |before| < |after| {
      CountSame(before, after[..|after| - 1], kind);
    } else {
      assert before == after;
    }
  }

  predicate OfStart(e: Event) { e.Start? }

  function Starts(log: seq<Event>): nat { Count(log, OfStart) }

  predicate OfJobs(e: Event) { e.JobsRead? }

  /** How often the jobs were read. */
  function Polls(log: seq<Event>): nat { Count(log, OfJobs) }

  predicate OfRound(e: Event) { e.OutcomesRead? }

  /** How many rounds of samples were begun. */
  function Rounds(log: seq<Event>): nat { Count(log, OfRound) }

  /** As many starts later as before: none came in between. */
  lemma {:induction false} NoStartBetween(log: seq<Event>, n: nat)
    requires n <= |log|
    ensures Starts(log[..n]) <= Starts(log)
    ensures Starts(log[..n]) == Starts(log) <==> forall j :: n <= j < |log| ==> !log[j].Start?
  {
    if n < |log| {
      var m := |log| - 1;
      NoStartBetween(log[..m], n);
      assert log[..m][..n] == log[..n];
      assert forall j :: n <= j < m ==> log[..m][j] == log[j];
    } else {
      assert log[..n] == log;
    }
  }

  /** Every start follows the stop, which is submitted once. */
  ghost predicate StartsFollow(log: seq<Event>) {
    && (forall i :: 0 <= i < |log| && log[i].Start? ==> exists j :: 0 <= j < i && log[j].Stop?)
    && (forall i, j :: 0 <= i < |log| && 0 <= j < |log| && log[i].Stop? && log[j].Stop? ==> i == j)
  }

  predicate AllProven(s: Option<seq<bool>>) { s.Some? && s.value != [] && false !in s.value }

  /** Signals are sent right after survivors were read, if there were any and each one was proven. */
  ghost predicate SignalsSafe(log: seq<Event>) {
    forall i :: 0 <= i < |log| && log[i].Signals? ==>
      i > 0 && log[i - 1].SurvivorsRead? && AllProven(log[i - 1].proven)
  }

  /** What a start adds to the log; on the next level a recovery; and on the next a look at what is serving. */
  predicate Managing(e: Event, level: nat) {
    || e.Start? || e.JobsRead? || e.UnitRead? || (e.Call? && e.step == Placing)
    || (level >= 1 && e.Recovery?) || (level >= 2 && e.ServingRead?)
  }

  ghost predicate Added(before: seq<Event>, after: seq<Event>, level: nat) {
    before <= after && forall i :: |before| <= i < |after| ==> Managing(after[i], level)
  }

  lemma AddedOn(before: seq<Event>, mid: seq<Event>, after: seq<Event>, level: nat, more: nat)
    requires Added(before, mid, level) && Added(mid, after, more)
    ensures Added(before, after, if level < more then more else level)
  {
    forall i | |before| <= i < |after| ensures Managing(after[i], if level < more then more else level) {
      if i < |mid| { assert after[i] == mid[i]; }
    }
  }

  predicate OfTry(e: Event) { e.ServingRead? || e == Recovery(true) }

  /** How often what is serving was looked at, or could not be because the recovery before it raised. */
  function Tries(log: seq<Event>): nat { Count(log, OfTry) }

  predicate Saw(e: Event) { e.ServingRead? && e.serving.Some? }

  /** The last that was seen serving from a place in the log on. */
  ghost predicate SeenLast(log: seq<Event>, from: nat, seen: Serving) {
    || (seen == Unseen && forall i :: from <= i < |log| ==> !Saw(log[i]))
    || exists i :: SeenAt(log, from, seen, i)
  }

  ghost predicate SeenAt(log: seq<Event>, from: nat, seen: Serving, i: nat) {
    from <= i < |log| && log[i] == ServingRead(Some(seen)) && forall j :: i < j < |log| ==> !Saw(log[j])
  }

  /** One try: after a stop a recovery first, then one look, unless the recovery raised. */
  ghost predicate Tried(before: seq<Event>, after: seq<Event>, read: Option<Serving>) {
    && Added(before, after, 2) && Tries(after) == Tries(before) + 1 && Starts(after) <= Starts(before) + 1
    && (forall i :: |before| <= i < |after| && after[i].ServingRead? ==>
          i == |after| - 1 && after[i] == ServingRead(read))
    && (read.Some? ==> |before| < |after| && after[|after| - 1] == ServingRead(read))
    && (Stop in before ==> exists raised :: before + [Recovery(raised)] <= after)
  }

  /** Tries since a place of the log, the last of them perhaps ready: what is serving is the last that was seen. */
  ghost predicate Turns(log: seq<Event>, from: nat, serving: Serving, target: string) {
    && SeenLast(log, from, serving)
    && (forall i :: from <= i < |log| && ReadyAt(log[i], target) ==>
          i == |log| - 1 && log[i] == ServingRead(Some(serving)))
    && (Ready(serving, target) ==> from < |log| && log[|log| - 1] == ServingRead(Some(serving)))
  }

  lemma TurnOn(before: seq<Event>, after: seq<Event>, from: nat, serving: Serving, read: Option<Serving>, target: string)
    requires from <= |before| && Turns(before, from, serving, target) && !Ready(serving, target)
    requires Tried(before, after, read)
    ensures Turns(after, from, if read.Some? then read.value else serving, target)
  {
    if read.Some? {
      assert SeenAt(after, from, read.value, |after| - 1);
    } else if exists i :: SeenAt(before, from, serving, i) {
      var i :| SeenAt(before, from, serving, i);
      assert SeenAt(after, from, serving, i);
    }
    assert forall i :: from <= i < |before| ==> !ReadyAt(before[i], target);
  }

  /** A recovery before a look: it counts as a try itself only if it raised. */
  lemma RecoveredFirst(before: seq<Event>, mid: seq<Event>, raised: bool)
    requires before + [Recovery(raised)] <= mid && Added(before + [Recovery(raised)], mid, 0)
    ensures Added(before, mid, 1) && Tries(mid) == Tries(before) + if raised then 1 else 0
    ensures forall i :: |before| <= i < |mid| ==> !mid[i].ServingRead?
  {
    CountOn(before, Recovery(raised), OfTry);
    CountSame(before + [Recovery(raised)], mid, OfTry);
  }

  lemma LookedThen(before: seq<Event>, mid: seq<Event>, read: Option<Serving>)
    requires Added(before, mid, 1) && Tries(mid) == Tries(before) && Starts(mid) <= Starts(before) + 1
    requires forall i :: |before| <= i < |mid| ==> !mid[i].ServingRead?
    requires Stop in before ==> before + [Recovery(false)] <= mid
    ensures Tried(before, mid + [ServingRead(read)], read)
  {
    CountOn(mid, ServingRead(read), OfTry);
    CountOn(mid, ServingRead(read), OfStart);
    AddedOn(before, mid, mid + [ServingRead(read)], 1, 2);
  }

  lemma AddedKeeps(before: seq<Event>, after: seq<Event>, level: nat)
    requires Added(before, after, level) && StartsFollow(before) && SignalsSafe(before)
    requires Stop in before || Starts(after) == Starts(before)
    ensures StartsFollow(after) && SignalsSafe(after) && (Stop in after <==> Stop in before)
  {
    NoStartBetween(after, |before|);
    assert after[..|before|] == before;
    forall i | 0 <= i < |after| && after[i].Start? ensures exists j :: 0 <= j < i && after[j].Stop? {
      if i < |before| {
        assert before[i].Start?;
        var j :| 0 <= j < i && before[j].Stop?;
        assert after[j].Stop?;
      } else {
        var j :| 0 <= j < |before| && before[j] == Stop;
        assert after[j].Stop?;
      }
    }
    forall i | 0 <= i < |after| && after[i].Stop? ensures i < |before| && before[i].Stop? { }
    forall i | 0 <= i < |after| && after[i].Signals?
      ensures i > 0 && after[i - 1].SurvivorsRead? && AllProven(after[i - 1].proven)
    {
      assert i < |before| && before[i].Signals?;
    }
  }

  /** What happened at the stop after its submission: the wait for it and, once the unit was seen stopped, the rest. */
  ghost predicate StopTold(polled: seq<Event>, tail: seq<Event>, outcome: StopOutcome) {
    && AwaitTold(polled, tail != [])
    && if tail == [] then outcome.StopIncomplete? else TailTold(tail, outcome)
  }

  /** At this place of the log stands the stop that came to this. */
  ghost predicate StopAt(log: seq<Event>, at: nat, outcome: StopOutcome) {
    at <= |log| && exists polled, tail :: [Stop] + polled + tail <= log[at..] && StopTold(polled, tail, outcome)
  }

  lemma StopStands(before: seq<Event>, after: seq<Event>, at: nat, outcome: StopOutcome)
    requires StopAt(before, at, outcome) && before <= after
    ensures StopAt(after, at, outcome)
  {
    var polled, tail :| [Stop] + polled + tail <= before[at..] && StopTold(polled, tail, outcome);
    assert before[at..] <= after[at..];
  }

  /** While a stop is awaited the jobs are read, and the unit exactly after no job was queued. */
  ghost predicate Polled(s: seq<Event>) {
    && (forall e :: e in s ==> e.JobsRead? || e.UnitRead?)
    && (forall k :: 0 <= k < |s| && s[k].UnitRead? ==> k > 0 && s[k - 1] == JobsRead(NoJob))
    && forall k :: 0 <= k < |s| && s[k] == JobsRead(NoJob) ==> k + 1 < |s| && s[k + 1].UnitRead?
  }

  /** The wait ends with the first sight of the unit stopped while no job was queued. */
  ghost predicate AwaitTold(polled: seq<Event>, settled: bool) {
    && Polled(polled)
    && (settled ==> polled != [] && polled[|polled| - 1] == UnitRead(Stopped))
    && forall k :: 0 <= k < |polled| && polled[k] == UnitRead(Stopped) ==> settled && k == |polled| - 1
  }

  lemma PollOn(polled: seq<Event>, j: Jobs, u: Unit)
    requires AwaitTold(polled, false)
    ensures j != NoJob ==> AwaitTold(polled + [JobsRead(j)], false)
    ensures AwaitTold(polled + [JobsRead(NoJob), UnitRead(u)], u == Stopped)
  {
    var more := polled + [JobsRead(NoJob), UnitRead(u)];
    assert more[|polled|] == JobsRead(NoJob) && more[|polled| + 1] == UnitRead(u);
  }

  lemma PollCounts(polled: seq<Event>, j: Jobs, u: Unit)
    ensures Polls(polled + [JobsRead(j)]) == Polls(polled) + 1
    ensures Polls(polled + [JobsRead(NoJob), UnitRead(u)]) == Polls(polled) + 1
  {
    CountOn(polled, JobsRead(j), OfJobs);
    CountOn(polled, JobsRead(NoJob), OfJobs);
    CountOn(polled + [JobsRead(NoJob)], UnitRead(u), OfJobs);
    assert polled + [JobsRead(NoJob), UnitRead(u)] == polled + [JobsRead(NoJob)] + [UnitRead(u)];
  }

  /** After the unit was seen stopped: first the wait for the release; survivors are read exactly if it failed, and
      signals sent exactly when some were read and each was proven. */
  ghost predicate TailTold(tail: seq<Event>, outcome: StopOutcome) {
    && tail != [] && tail[0].ReleaseRead? && (forall e :: e in tail ==> OfClearing(e))
    && ((exists s :: SurvivorsRead(s) in tail) <==> tail[0] == ReleaseRead(false))
    && SurvivorsTold(tail, outcome) && ReleaseTold(tail, outcome)
  }

  predicate OfClearing(e: Event) { e.ReleaseRead? || e.SurvivorsRead? || e.Signals? }

  predicate OfStop(e: Event) { e.JobsRead? || e.UnitRead? || OfClearing(e) }

  ghost predicate SurvivorsTold(told: seq<Event>, outcome: StopOutcome) {
    && (Signals in told <==> exists s :: SurvivorsRead(s) in told && AllProven(s))
    && (outcome.UnprovenSurvivors? <==> exists s: seq<bool> :: SurvivorsRead(Some(s)) in told && false in s)
  }

  /** The last that was told decides: released or not by the last look, incomplete when survivors could not be read or
      the retirement raised. */
  ghost predicate ReleaseTold(told: seq<Event>, outcome: StopOutcome)
    requires told != []
  {
    var last := told[|told| - 1];
    && (outcome.Released? ==> Signals !in told) && (outcome.ReleasedAfterRetirement? ==> Signals in told)
    && (outcome.Released? || outcome.ReleasedAfterRetirement? <==> last == ReleaseRead(true))
    && (outcome.NotReleased? <==> last == ReleaseRead(false))
    && (outcome.StopIncomplete? <==> last == Signals || last == SurvivorsRead(None))
  }

  lemma SafeOn(log: seq<Event>, e: Event)
    requires !e.Signals?
    ensures SignalsSafe(log) ==> SignalsSafe(log + [e])
  {
    forall i | SignalsSafe(log) && 0 <= i < |log + [e]| && (log + [e])[i].Signals?
      ensures i > 0 && (log + [e])[i - 1].SurvivorsRead? && AllProven((log + [e])[i - 1].proven)
    {
      assert log[i].Signals?;
    }
  }

  /** A read that is not of the unit leaves what the log says of it. */
  lemma OtherKeeps(before: seq<Event>, e: Event)
    requires e.OutcomesRead? || e.InventoryRead? || e.Call?
    requires StartsFollow(before) && SignalsSafe(before)
    ensures StartsFollow(before + [e]) && SignalsSafe(before + [e]) && (Stop in before + [e] <==> Stop in before)
    ensures Checked(before + [e]) == Checked(before) && Starts(before + [e]) == Starts(before)
  {
    CheckedOn(before, e);
    CountOn(before, e, OfStart);
    var after := before + [e];
    forall i | 0 <= i < |after| && after[i].Start? ensures exists j :: 0 <= j < i && after[j].Stop? {
      assert before[i].Start?;
      var j :| 0 <= j < i && before[j].Stop?;
      assert after[j].Stop?;
    }
  }

  lemma WaitTold(tail: seq<Event>, outcome: StopOutcome)
    requires tail != [] && tail[0].SurvivorsRead? && (forall e :: e in tail ==> OfClearing(e))
    requires SurvivorsTold(tail, outcome) && ReleaseTold(tail, outcome)
    ensures TailTold([ReleaseRead(false)] + tail, outcome)
  {
    assert forall e :: e in [ReleaseRead(false)] + tail <==> e == ReleaseRead(false) || e in tail;
    assert SurvivorsRead(tail[0].proven) in tail;
  }

  predicate OfRelocation(e: Event) {
    Managing(e, 0) || e.Stop? || OfStop(e) || (e.Call? && e.step == Placement)
  }

  lemma StoppedOnce(
      before: seq<Event>, polled: seq<Event>, tail: seq<Event>, all: seq<Event>, outcome: StopOutcome)
    requires StopTold(polled, tail, outcome) && StartsFollow(before) && Stop !in before
    requires all == before + ([Stop] + polled + tail)
    ensures StartsFollow(all) && Stop in all && Starts(before) == Starts(all) == 0
    ensures Relocating(before, all) && StopAt(all, |before|, outcome)
  {
    var told := [Stop] + polled + tail;
    assert forall e :: e in told <==> e == Stop || e in polled || e in tail;
    forall i | 0 <= i < |all| ensures !all[i].Start? && (all[i].Stop? ==> i == |before|) {
      if i < |before| {
        assert before[i] == all[i];
      } else if i > |before| {
        assert all[i] == (polled + tail)[i - |before| - 1];
        assert all[i] in polled || all[i] in tail;
      }
    }
    forall i | |before| <= i < |all| ensures OfRelocation(all[i]) {
      assert all[i] == told[i - |before|];
      assert all[i] in told;
    }
    assert all[|before|] == Stop && all[|before|..] == told;
    NoStartBetween(all, 0);
    NoStartBetween(before, 0);
    assert forall j :: 0 <= j < |before| ==> !before[j].Start? by {
      forall j | 0 <= j < |before| ensures !before[j].Start? { assert all[j] == before[j]; }
    }
  }

  ghost predicate Relocating(before: seq<Event>, after: seq<Event>) {
    before <= after && forall i :: |before| <= i < |after| ==> OfRelocation(after[i])
  }

  lemma RelocatingOn(before: seq<Event>, mid: seq<Event>, after: seq<Event>)
    requires Relocating(before, mid) && (Relocating(mid, after) || Added(mid, after, 0))
    ensures Relocating(before, after)
  {
    forall i | |before| <= i < |after| ensures OfRelocation(after[i]) {
      if i < |mid| { assert after[i] == mid[i]; }
    }
  }

  function VerdictOf(serving: Serving, protected: seq<Outcome>, inventory: Inventory, target: string): Verdict {
    if !Ready(serving, target) || Lost in protected then Fail
    else if Unknown in protected || inventory != Whole then NeedsDecision
    else Pass
  }

  /** The replacement does not serve: nothing was seen, a role has another sha or is unhealthy, or a check failed. */
  predicate Unfit(s: Serving, target: string) {
    || s.Unseen?
    || s.launcher.sha != target || s.viewer.sha != target || s.runtimeHost.sha != target
    || !s.launcher.healthy || !s.viewer.healthy || !s.runtimeHost.healthy || false in s.checks
  }

  /** The last round of samples: its outcomes, and what was last seen serving since. */
  ghost predicate RoundAt(log: seq<Event>, serving: Serving, protected: seq<Outcome>, o: nat) {
    && o < |log| && log[o] == OutcomesRead(protected) && SeenLast(log, o + 1, serving)
    && forall j :: o < j < |log| ==> !log[j].OutcomesRead?
  }

  /** As many rounds as asked for; what is told of serving and outcomes is from the last, if there was any. */
  ghost predicate RoundsTold(log: seq<Event>, serving: Serving, protected: seq<Outcome>, rounds: nat) {
    && Rounds(log) == rounds
    && if rounds == 0 then serving == Unseen && protected == [] else exists o :: RoundAt(log, serving, protected, o)
  }

  lemma RoundsStand(before: seq<Event>, after: seq<Event>, serving: Serving, protected: seq<Outcome>, rounds: nat)
    requires RoundsTold(before, serving, protected, rounds) && before <= after
    requires forall j :: |before| <= j < |after| ==> !after[j].OutcomesRead? && !after[j].ServingRead?
    ensures RoundsTold(after, serving, protected, rounds)
  {
    CountSame(before, after, OfRound);
    if rounds > 0 {
      var o: nat :| RoundAt(before, serving, protected, o);
      SeenStands(before, after, o + 1, serving);
      assert RoundAt(after, serving, protected, o);
    }
  }

  lemma SeenStands(before: seq<Event>, after: seq<Event>, from: nat, seen: Serving)
    requires SeenLast(before, from, seen) && before <= after
    requires forall j :: |before| <= j < |after| ==> !after[j].ServingRead?
    ensures SeenLast(after, from, seen)
  {
    if exists i :: SeenAt(before, from, seen, i) {
      var i :| SeenAt(before, from, seen, i);
      assert SeenAt(after, from, seen, i);
    }
  }

  lemma RoundBegun(before: seq<Event>, after: seq<Event>, serving: Serving, protected: seq<Outcome>)
    requires before + [OutcomesRead(protected)] <= after && Added(before + [OutcomesRead(protected)], after, 2)
    requires SeenLast(after, |before| + 1, serving)
    ensures RoundsTold(after, serving, protected, Rounds(before) + 1)
  {
    CountOn(before, OutcomesRead(protected), OfRound);
    CountSame(before + [OutcomesRead(protected)], after, OfRound);
    assert RoundAt(after, serving, protected, |before|);
  }

  lemma SampleTells(
      before: seq<Event>, mid: seq<Event>, after: seq<Event>, serving: Serving, protected: seq<Outcome>, target: string)
    requires mid == before + [OutcomesRead(protected)] && Added(mid, after, 2) && Turns(after, |mid|, serving, target)
    ensures RoundsTold(after, serving, protected, Rounds(before) + 1) && Sampled(after, serving, protected, target)
  {
    RoundBegun(before, after, serving, protected);
    if Ready(serving, target) { SampleIs(mid, after, serving, protected, target); }
  }

  /** Where the inventory was read last. */
  ghost predicate InventoryAt(log: seq<Event>, inventory: Inventory, v: nat) {
    v < |log| && log[v] == InventoryRead(inventory) && forall j :: v < j < |log| ==> !log[j].InventoryRead?
  }

  /** The verdict by the log: what was read, and whether the unit had to be recovered since. */
  ghost predicate JudgedAt(log: seq<Event>, r: Result, target: string, v: nat) {
    var recovered := exists j :: v < j < |log| && (log[j].Start? || log[j] == Recovery(true));
    var failed := Unfit(r.serving, target) || Lost in r.protected || recovered;
    && InventoryAt(log, r.inventory, v)
    && (r.verdict == Fail <==> failed)
    && (r.verdict == NeedsDecision <==> !failed && (Unknown in r.protected || r.inventory != Whole))
  }

  ghost predicate Judged(log: seq<Event>, r: Result, target: string) { exists v :: JudgedAt(log, r, target, v) }

  /** A first verdict, given right after the inventory was read, and what a later recovery makes of it. */
  lemma JudgedAfter(before: seq<Event>, after: seq<Event>, r: Result, target: string, recovered: bool)
    requires before != [] && before[|before| - 1] == InventoryRead(r.inventory)
    requires r.verdict == VerdictOf(r.serving, r.protected, r.inventory, target) && Added(before, after, 1)
    requires recovered <==> exists j :: |before| <= j < |after| && (after[j].Start? || after[j] == Recovery(true))
    ensures Judged(after, if recovered then r.(verdict := Fail) else r, target)
  {
    assert JudgedAt(after, if recovered then r.(verdict := Fail) else r, target, |before| - 1);
  }

  /** A pass by the log: the outcomes, then a serving sample that was ready, then the whole inventory, each the last of
      its kind; nothing lost or unknown; and after the sample no start, no stop and no recovery that raised. */
  ghost predicate EarnedAt(log: seq<Event>, r: Result, target: string, o: nat, i: nat, v: nat) {
    && o < i < v < |log| && log[o] == OutcomesRead(r.protected)
    && log[i] == ServingRead(Some(r.serving)) && log[v] == InventoryRead(r.inventory) && r.inventory == Whole
    && Ready(r.serving, target) && Lost !in r.protected && Unknown !in r.protected
    && (forall j :: o < j < |log| ==> !log[j].OutcomesRead?)
    && (forall j :: v < j < |log| ==> !log[j].InventoryRead?)
    && forall j :: i < j < |log| ==> !Undoes(log[j])
  }

  /** What takes a serving sample back. */
  predicate Undoes(e: Event) { e.ServingRead? || e.Start? || e.Stop? || e == Recovery(true) }

  ghost predicate Earned(log: seq<Event>, r: Result, target: string) {
    exists o, i, v :: EarnedAt(log, r, target, o, i, v)
  }

  /** The outcomes and, when it was ready, the serving sample that a round of samples left. */
  ghost predicate Sampled(log: seq<Event>, serving: Serving, protected: seq<Outcome>, target: string) {
    Ready(serving, target) ==>
      exists o :: 0 <= o < |log| - 1 && log[o] == OutcomesRead(protected)
                  && log[|log| - 1] == ServingRead(Some(serving))
                  && forall j :: o < j < |log| ==> !log[j].OutcomesRead?
  }

  lemma SampleIs(mid: seq<Event>, log: seq<Event>, serving: Serving, protected: seq<Outcome>, target: string)
    requires mid != [] && mid[|mid| - 1] == OutcomesRead(protected) && Added(mid, log, 2)
    requires |mid| < |log| && log[|log| - 1] == ServingRead(Some(serving))
    ensures Sampled(log, serving, protected, target)
  {
    assert log[|mid| - 1] == mid[|mid| - 1];
  }

  lemma SampleEarns(log: seq<Event>, r: Result, target: string)
    requires Sampled(log, r.serving, r.protected, target)
    requires VerdictOf(r.serving, r.protected, r.inventory, target) == Pass
    ensures Earned(log + [InventoryRead(r.inventory)], r, target)
  {
    var o :| 0 <= o < |log| - 1 && log[o] == OutcomesRead(r.protected) && log[|log| - 1] == ServingRead(Some(r.serving))
      && forall j :: o < j < |log| ==> !log[j].OutcomesRead?;
    assert EarnedAt(log + [InventoryRead(r.inventory)], r, target, o, |log| - 1, |log|);
  }

  /** A recovery that neither raised nor submitted a start leaves a pass as it was; any other takes it back. */
  lemma PassAfter(before: seq<Event>, after: seq<Event>, r: Result, target: string, kept: bool)
    requires Added(before, after, 1) && Earned(before, r, target)
    requires kept <==> forall j :: |before| <= j < |after| ==> !after[j].Start? && after[j] != Recovery(true)
    ensures Earned(after, r, target) <==> kept
  {
    if kept {
      var o, i, v :| EarnedAt(before, r, target, o, i, v);
      assert EarnedAt(after, r, target, o, i, v);
    } else {
      var bad :| |before| <= bad < |after| && (after[bad].Start? || after[bad] == Recovery(true));
      assert Undoes(after[bad]);
      forall o: nat, i: nat, v: nat ensures !EarnedAt(after, r, target, o, i, v) { }
    }
  }

  /** Whether a pass was earned does not depend on the verdict given. */
  lemma VerdictAside(log: seq<Event>, r: Result, target: string, given: Verdict)
    ensures Earned(log, r.(verdict := given), target) ==> Earned(log, r, target)
  {
    var other := r.(verdict := given);
    forall o: nat, i: nat, v: nat | EarnedAt(log, other, target, o, i, v) ensures EarnedAt(log, r, target, o, i, v) { }
  }

  /** A verdict other than a pass was not earned as one. */
  lemma NoPass(log: seq<Event>, r: Result, target: string)
    requires r.verdict == VerdictOf(r.serving, r.protected, r.inventory, target) && r.verdict != Pass
    ensures !Earned(log, r, target)
  {
    forall o: nat, i: nat, v: nat ensures !EarnedAt(log, r, target, o, i, v) { }
  }

  /** After the last recovery: `pending` when one of its batches failed. */
  lemma PassStands(before: seq<Event>, after: seq<Event>, r: Result, target: string, pending: bool)
    requires Added(before, after, 1) && (r.verdict == Pass ==> Earned(before, r, target))
    requires r.verdict == VerdictOf(r.serving, r.protected, r.inventory, target)
    requires !pending ==> forall j :: |before| <= j < |after| ==> after[j] != Recovery(true)
    requires pending ==> exists j :: |before| <= j < |after| && (after[j].Start? || after[j] == Recovery(true))
    ensures Earned(after, r, target) <==> r.verdict == Pass && !pending && Starts(after) == Starts(before)
  {
    NoStartBetween(after, |before|);
    assert after[..|before|] == before;
    if r.verdict == Pass {
      PassAfter(before, after, r, target, !pending && Starts(after) == Starts(before));
    } else {
      NoPass(after, r, target);
    }
  }

  /** What the last recovery makes of a first result. */
  lemma Concludes(before: seq<Event>, after: seq<Event>, r: Result, target: string, samples: nat, pending: bool)
    requires before != [] && before[|before| - 1] == InventoryRead(r.inventory) && Added(before, after, 1)
    requires RoundsTold(before, r.serving, r.protected, samples)
    requires r.verdict == VerdictOf(r.serving, r.protected, r.inventory, target)
    requires r.verdict == Pass ==> Earned(before, r, target)
    requires !pending ==> forall j :: |before| <= j < |after| ==> after[j] != Recovery(true)
    requires pending ==> exists j :: |before| <= j < |after| && (after[j].Start? || after[j] == Recovery(true))
    ensures var last := if pending || Starts(after) != Starts(before) then r.(verdict := Fail) else r;
      && RoundsTold(after, r.serving, r.protected, samples) && Judged(after, last, target)
      && (last.verdict == Pass <==> Earned(after, last, target))
  {
    NoStartBetween(after, |before|);
    assert after[..|before|] == before;
    RoundsStand(before, after, r.serving, r.protected, samples);
    JudgedAfter(before, after, r, target, pending || Starts(after) != Starts(before));
    PassStands(before, after, r, target, pending);
    VerdictAside(after, r, target, Fail);
  }

  /** The last thing read is where the unit was placed. */
  predicate Placed(log: seq<Event>) { log != [] && log[|log| - 1].Call? && log[|log| - 1].step == Placing }

  /** What ends a run by an exception, in the end. */
  predicate Ends(e: Event) { e.Call? && e.raised && (e.step.Preflight? || e.step.Killed? || e.step.Pause?) }

  ghost predicate Ended(log: seq<Event>) { exists e :: e in log && Ends(e) }

  /** What comes before the stop of the unit. */
  const LEAD := [Call(Preflight, false), Call(Killed, false), Call(Publication, false), Call(Placement, false), Stop]

  /** The unit is stopped unless something before the stop raised, and not if it did. */
  ghost predicate LedOn(log: seq<Event>) {
    if Stop in log then LEAD <= log
    else exists i: nat :: i < 4 && LEAD[..i] + [LEAD[i].(raised := true)] <= log
  }

  lemma LedAt(log: seq<Event>, i: nat)
    requires i < 4 && LEAD[..i] + [LEAD[i].(raised := true)] <= log && Stop !in log
    ensures LedOn(log)
  {}

  lemma LedStays(before: seq<Event>, after: seq<Event>)
    requires LedOn(before) && before <= after && (Stop in before <==> Stop in after)
    ensures LedOn(after)
  {
    if Stop !in before {
      var i: nat :| i < 4 && LEAD[..i] + [LEAD[i].(raised := true)] <= before;
      LedAt(after, i);
    }
  }

  /** No round and no pause so far. */
  ghost predicate BeforeRounds(log: seq<Event>) {
    forall i :: 0 <= i < |log| ==> !log[i].OutcomesRead? && log[i] != Call(Pause, false)
  }

  ghost predicate RoundIn(log: seq<Event>, hi: nat) { exists i :: 0 <= i < hi <= |log| && log[i].OutcomesRead? }

  /** Every round but the first comes right after a pause, and there is no other pause that ran its time. */
  ghost predicate PacedAt(log: seq<Event>, j: nat)
    requires j < |log|
  {
    && (log[j].OutcomesRead? && RoundIn(log, j) ==> log[j - 1] == Call(Pause, false))
    && (log[j] == Call(Pause, false) ==> RoundIn(log, j) && j + 1 < |log| && log[j + 1].OutcomesRead?)
  }

  ghost predicate Paced(log: seq<Event>) { forall j :: 0 <= j < |log| ==> PacedAt(log, j) }

  predicate OfPace(e: Event) { e.OutcomesRead? || e == Call(Pause, false) }

  lemma RoundsIn(before: seq<Event>, after: seq<Event>, hi: nat)
    requires before <= after && hi <= |before|
    ensures RoundIn(before, hi) <==> RoundIn(after, hi)
  {
    assert forall i :: 0 <= i < hi ==> before[i] == after[i];
  }

  lemma PacedStays(before: seq<Event>, after: seq<Event>)
    requires Paced(before) && before <= after && forall i :: |before| <= i < |after| ==> !OfPace(after[i])
    ensures Paced(after)
  {
    forall j | 0 <= j < |after| ensures PacedAt(after, j) {
      if j < |before| {
        assert PacedAt(before, j);
        RoundsIn(before, after, j);
      }
    }
  }

  /** One more round, after a pause unless it is the first. */
  lemma PacedRound(before: seq<Event>, mid: seq<Event>, after: seq<Event>, protected: seq<Outcome>, was: Serving,
                   last: seq<Outcome>, index: nat)
    requires Paced(before) && (if index == 0 then BeforeRounds(before) else RoundsTold(before, was, last, index))
    requires mid == (if index == 0 then before else before + [Call(Pause, false)])
    requires Added(mid + [OutcomesRead(protected)], after, 2)
    ensures Paced(after) && EndsAtLast(before, after, false)
  {
    if index > 0 {
      var o: nat :| RoundAt(before, was, last, o);
      assert before[o].OutcomesRead? && after[o] == before[o];
    }
    forall j | 0 <= j < |after| ensures PacedAt(after, j) {
      if j < |before| {
        assert PacedAt(before, j);
        RoundsIn(before, after, j);
      } else if j == |mid| {
        assert after[j] == OutcomesRead(protected);
        assert index > 0 ==> after[j - 1] == mid[j - 1];
      } else if j < |mid| {
        assert after[j] == mid[j] && after[j + 1] == OutcomesRead(protected);
      }
    }
    forall i | |before| <= i < |after| ensures !Ends(after[i]) {
      if i < |mid| { assert after[i] == mid[i]; }
    }
  }

  /** What ends a run came last, or not at all. */
  ghost predicate EndsAtLast(before: seq<Event>, after: seq<Event>, raised: bool) {
    && before <= after && (forall i :: |before| <= i < |after| - 1 ==> !Ends(after[i]))
    && (raised <==> |before| < |after| && Ends(after[|after| - 1]))
  }

  lemma EndsLater(before: seq<Event>, mid: seq<Event>, after: seq<Event>, raised: bool)
    requires EndsAtLast(before, mid, false) && EndsAtLast(mid, after, raised)
    ensures EndsAtLast(before, after, raised)
  {
    forall i | |before| <= i < |after| - 1 ensures !Ends(after[i]) {
      if i < |mid| { assert after[i] == mid[i]; }
    }
    if |mid| == |after| { assert mid == after; }
  }

  lemma EndedLater(before: seq<Event>, after: seq<Event>, raised: bool)
    requires EndsAtLast(before, after, raised)
    ensures Ended(after) <==> Ended(before) || raised
  {
    assert forall e :: e in after <==> e in before || exists i :: |before| <= i < |after| && after[i] == e;
    if raised { assert after[|after| - 1] in after; }
  }

  lemma EndedStays(before: seq<Event>, after: seq<Event>)
    requires before <= after && forall i :: |before| <= i < |after| ==> !Ends(after[i])
    ensures Ended(after) <==> Ended(before)
  {
    EndedLater(before, after, false);
  }

  lemma EndedOn(before: seq<Event>, e: Event)
    ensures Ended(before + [e]) <==> Ended(before) || Ends(e)
  {
    EndedLater(before, before + [e], Ends(e));
  }

  /** Nothing in a relocation ends the run by itself. */
  lemma RelocationLed(before: seq<Event>, after: seq<Event>, stopped: bool)
    requires before == LEAD[..3] && Relocating(before, after) && (Stop in after <==> stopped)
    requires before + Relocated(stopped) <= after
    ensures LedOn(after) && !Ended(after) && BeforeRounds(after)
  {
    assert forall i :: 0 <= i < |before| ==> after[i] == before[i];
    if stopped {
      assert LEAD == before + Relocated(true);
    } else {
      LedAt(after, 3);
    }
  }

  /** Whether what a relocation raised was no ordinary exception is all that it adds. */
  lemma KilledOn(before: seq<Event>, fatal: bool)
    requires LedOn(before) && !Ended(before) && BeforeRounds(before)
    ensures LedOn(before + [Call(Killed, fatal)]) && BeforeRounds(before + [Call(Killed, fatal)])
    ensures fatal <==> Ended(before + [Call(Killed, fatal)])
  {
    LedStays(before, before + [Call(Killed, fatal)]);
    EndedOn(before, Call(Killed, fatal));
  }

  /** A relocation from its first call over its stop to its start. */
  lemma RelocationTold(before: seq<Event>, mid: seq<Event>, stopped: seq<Event>, after: seq<Event>, outcome: StopOutcome)
    requires mid == before + [Call(Placement, false)] && Relocating(mid, stopped) && Added(stopped, after, 0)
    requires StopAt(stopped, |mid|, outcome)
    ensures Relocating(before, after) && StopAt(after, |before| + 1, outcome) && before + Relocated(true) <= after
  {
    StopStands(stopped, after, |mid|, outcome);
    RelocatingOn(mid, stopped, after);
    RelocatingOn(before, mid, after);
    assert after[|mid|..][0] == Stop;
  }

  /** How a relocation begins. */
  function Relocated(stopped: bool): seq<Event> {
    if stopped then [Call(Placement, false), Stop] else [Call(Placement, true)]
  }

  class Switch {
    const world: World
    var stopSubmitted: bool
    var started: bool
    var startAttempts: nat
    var stopOutcome: StopOutcome

    ghost predicate Valid()
      reads this, world
    {
      && world.Valid() && (stopSubmitted <==> Stop in world.log) && startAttempts == Starts(world.log)
      && (started ==> Checked(world.log))
      && StartsFollow(world.log) && SignalsSafe(world.log)
    }

    constructor (world: World)
      requires world.Valid() && world.log == []
      ensures Valid() && this.world == world && !stopSubmitted && !started && startAttempts == 0
    {
      this.world := world;
      stopSubmitted, started, startAttempts, stopOutcome := false, false, 0, StopIncomplete;
    }

    /** Waits until no job is queued and then looks at the unit; it gives up only when its time is up. */
    method Settled() returns (r: bool)
      requires world.Valid()
      modifies world`log
      ensures world.Valid()
      ensures Added(old(world.log), world.log, 0) && Starts(world.log) == Starts(old(world.log))
      ensures StopsAt(world.log, |old(world.log)|, r)
      ensures world.log[|world.log| - 1].UnitRead?
        || Polls(world.log) == Polls(old(world.log)) + world.patience(|old(world.log)|) + 1
    {
      var polls := world.patience(|world.log|);
      for poll := 0 to polls + 1
        invariant world.Valid()
        invariant Added(old(world.log), world.log, 0) && Starts(world.log) == Starts(old(world.log))
        invariant if poll == 0 then world.log == old(world.log) else StopsAt(world.log, |old(world.log)|, false)
        invariant Polls(world.log) == Polls(old(world.log)) + poll
      {
        ghost var before := world.log;
        var idle := Look();
        LaterStops(old(world.log), before, world.log, idle == Some(Active));
        if idle.Some? { return idle.value == Active; }
      }
      r := false;
    }

    /** Reads the jobs and, when none is queued, the unit. */
    method Look() returns (u: Option<Unit>)
      requires world.Valid()
      modifies world`log
      ensures world.Valid()
      ensures Added(old(world.log), world.log, 0) && Starts(world.log) == Starts(old(world.log))
      ensures Polls(world.log) == Polls(old(world.log)) + 1
      ensures StopsAt(world.log, |old(world.log)|, u == Some(Active))
      ensures u.Some? <==> world.log[|world.log| - 1].UnitRead?
      ensures var n := |old(world.log)|; u == if world.jobs(n) == NoJob then Some(world.unit(n + 1)) else None
    {
      ghost var before := world.log;
      var j := world.ReadJobs();
      CountOn(before, JobsRead(j), OfStart);
      CountOn(before, JobsRead(j), OfJobs);
      LookStops(before, j, Active);
      if j != NoJob { return None; }
      var unit := world.ReadUnit();
      CountOn(before + [JobsRead(j)], UnitRead(unit), OfStart);
      CountOn(before + [JobsRead(j)], UnitRead(unit), OfJobs);
      LookStops(before, j, unit);
      assert world.log == before + [JobsRead(NoJob), UnitRead(unit)];
      u := Some(unit);
    }

    /** One start: a refused one is not waited for. */
    method Attempt() returns (seen: bool)
      requires world.Valid()
      modifies world`log
      ensures world.Valid()
      ensures Added(old(world.log), world.log, 0) && Starts(world.log) == Starts(old(world.log)) + 1
      ensures StopsAt(world.log, |old(world.log)|, seen)
      ensures var n := |old(world.log)|;
        if world.raises(n) then world.log == old(world.log) + [Start]
        else
          || world.log[|world.log| - 1].UnitRead?
          || Polls(world.log) == Polls(old(world.log)) + world.patience(n + 1) + 1
    {
      ghost var before := world.log;
      var refused := world.Submit(Start);
      CountOn(before, Start, OfStart);
      CountOn(before, Start, OfJobs);
      ghost var submitted := world.log;
      assert StopsAt(submitted, |before|, false);
      if refused { return false; }
      seen := Settled();
      AddedOn(before, submitted, world.log, 0, 0);
      StopsLater(submitted, world.log, |before|, seen);
    }

    /** Starts the unit, retrying a refused or failed start until it is seen active. */
    method Launch(attempts: nat)
      requires Valid() && stopSubmitted && attempts > 0
      modifies this`started, this`startAttempts, world`log
      ensures Valid() && Added(old(world.log), world.log, 0)
      ensures old(startAttempts) < startAttempts <= old(startAttempts) + attempts
      ensures !started ==> startAttempts == old(startAttempts) + attempts
      ensures StopsAt(world.log, |old(world.log)|, started)
    {
      started := false;
      for attempt := 0 to attempts
        invariant world.Valid() && Added(old(world.log), world.log, 0) && !started
        invariant startAttempts == old(startAttempts) + attempt == Starts(world.log)
        invariant if attempt == 0 then world.log == old(world.log) else StopsAt(world.log, |old(world.log)|, false)
      {
        startAttempts := startAttempts + 1;
        ghost var before := world.log;
        var seen := Attempt();
        AddedOn(old(world.log), before, world.log, 0, 0);
        StopsLater(before, world.log, |old(world.log)|, seen);
        if seen {
          AddedKeeps(old(world.log), world.log, 0);
          started := true;
          return;
        }
      }
      AddedKeeps(old(world.log), world.log, 0);
    }

    /** Finds the unit active with no job, or starts it; then reads where it was placed. */
    method RecoverStart(attempts: nat) returns (raised: bool)
      requires Valid() && stopSubmitted && attempts > 0
      modifies this`started, this`startAttempts, world`log
      ensures Valid() && old(world.log) + [Recovery(raised)] <= world.log
      ensures Added(old(world.log) + [Recovery(raised)], world.log, 0) && Added(old(world.log), world.log, 1)
      ensures old(startAttempts) <= startAttempts <= old(startAttempts) + attempts
      ensures raised ==> world.raises(|old(world.log)|) && startAttempts == old(startAttempts)
      ensures !raised ==> (started <==> Checked(world.log))
      ensures startAttempts > old(startAttempts) ==> Placed(world.log)
      ensures !raised && !started ==> startAttempts == old(startAttempts) + attempts
      ensures var n := |old(world.log)| + 1; !raised && world.jobs(n) == NoJob && world.unit(n + 1) == Active ==>
        started && startAttempts == old(startAttempts)
    {
      raised := NoteRecovery();
      if raised { return; }
      ghost var mid := world.log;
      Restore(attempts);
      AddedOn(old(world.log), mid, world.log, 1, 0);
    }

    method NoteRecovery() returns (raised: bool)
      requires Valid()
      modifies world`log
      ensures Valid() && world.log == old(world.log) + [Recovery(raised)] && raised == world.raises(|old(world.log)|)
      ensures Added(old(world.log), world.log, 1)
    {
      raised := world.Recover();
      CountOn(old(world.log), Recovery(raised), OfStart);
      CheckedOn(old(world.log), Recovery(raised));
      AddedKeeps(old(world.log), world.log, 1);
    }

    method Restore(attempts: nat)
      requires Valid() && stopSubmitted && attempts > 0
      modifies this`started, this`startAttempts, world`log
      ensures Valid() && Added(old(world.log), world.log, 0)
      ensures old(startAttempts) <= startAttempts <= old(startAttempts) + attempts
      ensures !started ==> startAttempts == old(startAttempts) + attempts
      ensures started <==> Checked(world.log)
      ensures startAttempts > old(startAttempts) ==> Placed(world.log)
      ensures var n := |old(world.log)|;
        world.jobs(n) == NoJob && world.unit(n + 1) == Active ==> started && startAttempts == old(startAttempts)
    {
      var seen := Look();
      AddedKeeps(old(world.log), world.log, 0);
      started := seen == Some(Active);
      if started { return; }
      ghost var looked := world.log;
      Launch(attempts);
      Place(looked);
      AddedOn(old(world.log), looked, world.log, 0, 0);
    }

    /** Reads where the unit was placed; a failure is ignored. */
    method Place(ghost before: seq<Event>)
      requires Valid() && Added(before, world.log, 0)
      modifies world`log
      ensures Placed(world.log)
      ensures Valid() && Added(before, world.log, 0) && (Checked(world.log) <==> Checked(old(world.log)))
    {
      var raised := MakeCall(Placing);
    }

    /** Waits for the stop: no job queued and the unit stopped; it gives up only when its time is up. */
    method AwaitStop() returns (settled: bool, ghost polled: seq<Event>)
      requires world.Valid()
      modifies world`log
      ensures world.Valid()
      ensures world.log == old(world.log) + polled && AwaitTold(polled, settled) && polled != []
      ensures !settled ==> Polls(polled) == world.patience(|old(world.log)|) + 1
      ensures SignalsSafe(old(world.log)) ==> SignalsSafe(world.log)
    {
      polled := [];
      var polls := world.patience(|world.log|);
      for poll := 0 to polls + 1
        invariant world.Valid() && world.log == old(world.log) + polled && AwaitTold(polled, false)
        invariant Polls(polled) == poll && (poll > 0 ==> polled != [])
        invariant SignalsSafe(old(world.log)) ==> SignalsSafe(world.log)
      {
        ghost var before := world.log;
        var j := world.ReadJobs();
        SafeOn(before, JobsRead(j));
        PollOn(polled, j, Stopped);
        PollCounts(polled, j, Stopped);
        if j != NoJob {
          polled := polled + [JobsRead(j)];
        } else {
          var u := world.ReadUnit();
          SafeOn(before + [JobsRead(j)], UnitRead(u));
          PollOn(polled, j, u);
          PollCounts(polled, j, u);
          polled := polled + [JobsRead(j), UnitRead(u)];
          if u == Stopped { return true, polled; }
        }
      }
      settled := false;
    }

    /** Stops the unit and waits for its old cgroup; retires what is left there if all of it is proven. A refused stop
        is not waited for. */
    method StopUnit() returns (outcome: StopOutcome, ghost polled: seq<Event>, ghost tail: seq<Event>)
      requires world.Valid()
      modifies world`log
      ensures world.Valid()
      ensures world.log == old(world.log) + ([Stop] + polled + tail) && StopTold(polled, tail, outcome)
      ensures polled == [] <==> world.raises(|old(world.log)|)
      ensures polled != [] && tail == [] ==> Polls(polled) == world.patience(|old(world.log)| + 1) + 1
      ensures Signals in tail ==>
        (outcome.StopIncomplete? <==> world.raises(|old(world.log)| + |polled| + 3))
      ensures SignalsSafe(old(world.log)) ==> SignalsSafe(world.log)
    {
      polled, tail := [], [];
      var refused := world.Submit(Stop);
      SafeOn(old(world.log), Stop);
      if refused {
        assert world.log == old(world.log) + ([Stop] + polled + tail);
        return StopIncomplete, polled, tail;
      }
      var settled;
      settled, polled := AwaitStop();
      if !settled {
        assert world.log == old(world.log) + ([Stop] + polled + tail);
        return StopIncomplete, polled, tail;
      }
      outcome, tail := Release();
      assert world.log == old(world.log) + ([Stop] + polled + tail);
    }

    /** Waits for the old cgroup to be released. */
    method Release() returns (outcome: StopOutcome, ghost tail: seq<Event>)
      requires world.Valid()
      modifies world`log
      ensures world.Valid() && world.log == old(world.log) + tail && TailTold(tail, outcome)
      ensures Signals in tail ==> (outcome.StopIncomplete? <==> world.raises(|old(world.log)| + 2))
      ensures SignalsSafe(old(world.log)) ==> SignalsSafe(world.log)
    {
      var released := world.AwaitRelease();
      SafeOn(old(world.log), ReleaseRead(released));
      if released { return Released, [ReleaseRead(true)]; }
      ghost var more;
      outcome, more := Clear();
      WaitTold(more, outcome);
      tail := [ReleaseRead(false)] + more;
    }

    /** What is left in the old cgroup when the wait is over: it is retired if all of it is proven. */
    method Clear() returns (outcome: StopOutcome, ghost tail: seq<Event>)
      requires world.Valid()
      modifies world`log
      ensures world.Valid()
      ensures world.log == old(world.log) + tail && tail != [] && tail[0].SurvivorsRead?
      ensures SurvivorsTold(tail, outcome) && ReleaseTold(tail, outcome)
      ensures forall e :: e in tail ==> OfClearing(e)
      ensures Signals in tail ==> (outcome.StopIncomplete? <==> world.raises(|old(world.log)| + 1))
      ensures SignalsSafe(old(world.log)) ==> SignalsSafe(world.log)
    {
      var s := world.ReadSurvivors();
      tail := [SurvivorsRead(s)];
      if s.None? { return StopIncomplete, tail; }
      if false in s.value {
        assert SurvivorsRead(Some(s.value)) in tail;
        return UnprovenSurvivors, tail;
      }
      if s.value == [] {
        var released := world.AwaitRelease();
        tail := tail + [ReleaseRead(released)];
        return if released then Released else NotReleased, tail;
      }
      outcome, tail := RetireAll(s);
    }

    /** Signals the survivors, each of them proven by the last read, and waits again. */
    method RetireAll(s: Option<seq<bool>>) returns (outcome: StopOutcome, ghost tail: seq<Event>)
      requires world.Valid() && AllProven(s) && world.log != [] && world.log[|world.log| - 1] == SurvivorsRead(s)
      modifies world`log
      ensures world.Valid() && tail != [] && tail[0].SurvivorsRead?
      ensures world.log == old(world.log)[..|old(world.log)| - 1] + tail
      ensures SurvivorsTold(tail, outcome) && ReleaseTold(tail, outcome)
      ensures forall e :: e in tail ==> OfClearing(e)
      ensures Signals in tail && (outcome.StopIncomplete? <==> world.raises(|old(world.log)|))
      ensures SignalsSafe(old(world.log)) ==> SignalsSafe(world.log)
    {
      var raised := world.Submit(Signals);
      tail := [SurvivorsRead(s), Signals];
      assert tail[0] == SurvivorsRead(s) && tail[1] == Signals;
      if raised { return StopIncomplete, tail; }
      var released := world.AwaitRelease();
      tail := [SurvivorsRead(s), Signals, ReleaseRead(released)];
      assert tail[0] == SurvivorsRead(s) && tail[1] == Signals;
      outcome := if released then ReleasedAfterRetirement else NotReleased;
    }

    /** The stop, and once it was submitted the start, whatever the stop came to. */
    method Relocate() returns (raised: bool)
      requires Valid() && !stopSubmitted
      modifies this, world`log
      ensures Valid() && Relocating(old(world.log), world.log)
      ensures old(world.log) + Relocated(stopSubmitted) <= world.log
      ensures if stopSubmitted then raised <==> !started else raised
      ensures stopSubmitted ==> startAttempts > 0 && (started <==> Checked(world.log))
      ensures stopSubmitted ==> StopAt(world.log, |old(world.log)| + 1, stopOutcome) && Placed(world.log)
    {
      raised := MakeCall(Placement);
      if raised { return; }
      ghost var mid := world.log;
      TurnOff();
      ghost var stopped := world.log;
      Launch(START_ATTEMPTS);
      Place(stopped);
      RelocationTold(old(world.log), mid, stopped, world.log, stopOutcome);
      raised := !started;
    }

    method TurnOff()
      requires Valid() && !stopSubmitted
      modifies this, world`log
      ensures Valid() && Relocating(old(world.log), world.log) && stopSubmitted && startAttempts == 0
      ensures StopAt(world.log, |old(world.log)|, stopOutcome)
    {
      started := false;
      stopSubmitted := true;
      stopOutcome := StopOnce();
    }

    /** The one stop, in a log without another. */
    method StopOnce() returns (outcome: StopOutcome)
      requires world.Valid() && StartsFollow(world.log) && SignalsSafe(world.log) && Stop !in world.log
      modifies world`log
      ensures world.Valid() && StartsFollow(world.log) && SignalsSafe(world.log) && Stop in world.log
      ensures Starts(old(world.log)) == Starts(world.log) == 0 && Relocating(old(world.log), world.log)
      ensures StopAt(world.log, |old(world.log)|, outcome)
    {
      ghost var polled, tail;
      outcome, polled, tail := StopUnit();
      StoppedOnce(old(world.log), polled, tail, world.log, outcome);
    }

    method MakeCall(step: Step) returns (raised: bool)
      requires Valid()
      modifies world`log
      ensures Valid() && world.log == old(world.log) + [Call(step, raised)]
      ensures Checked(world.log) <==> Checked(old(world.log))
    {
      raised := world.Make(step);
      CountOn(old(world.log), Call(step, raised), OfStart);
      OtherKeeps(old(world.log), Call(step, raised));
    }

    /** One sample of what is serving, retried while it is not the target, until its time is up; it is the last that
        was seen, and a ready one ends it. */
    method SampleServing(target: string) returns (serving: Serving)
      requires Valid()
      modifies this`started, this`startAttempts, world`log
      ensures Valid() && Added(old(world.log), world.log, 2)
      ensures Turns(world.log, |old(world.log)|, serving, target)
      ensures !Ready(serving, target) ==>
        Tries(world.log) == Tries(old(world.log)) + world.patience(|old(world.log)|) + 1
    {
      serving := Unseen;
      var tries := world.patience(|world.log|);
      for turn := 0 to tries + 1
        invariant Valid() && Added(old(world.log), world.log, 2) && !Ready(serving, target)
        invariant Turns(world.log, |old(world.log)|, serving, target)
        invariant Tries(world.log) == Tries(old(world.log)) + turn
      {
        ghost var before := world.log;
        var read := TryServing();
        AddedOn(old(world.log), before, world.log, 2, 2);
        TurnOn(before, world.log, |old(world.log)|, serving, read, target);
        if read.Some? {
          serving := read.value;
          if Ready(serving, target) { return; }
        }
      }
    }

    /** Sees to it that the unit is active, once it was stopped, and looks at what is serving. */
    method TryServing() returns (read: Option<Serving>)
      requires Valid()
      modifies this`started, this`startAttempts, world`log
      ensures Valid() && Tried(old(world.log), world.log, read)
    {
      ghost var before := world.log;
      if stopSubmitted {
        var raised := RecoverStart(1);
        RecoveredFirst(before, world.log, raised);
        if raised { return None; }
      }
      ghost var mid := world.log;
      read := LookServing();
      LookedThen(before, mid, read);
    }

    method LookServing() returns (s: Option<Serving>)
      requires Valid()
      modifies world`log
      ensures Valid() && world.log == old(world.log) + [ServingRead(s)] && Added(old(world.log), world.log, 2)
    {
      s := world.ReadServing();
      CountOn(old(world.log), ServingRead(s), OfStart);
      CheckedOn(old(world.log), ServingRead(s));
      AddedKeeps(old(world.log), world.log, 2);
    }

    /** Looks at the protected conversations and then at what is serving. */
    method Sample(target: string) returns (serving: Serving, protected: seq<Outcome>)
      requires Valid()
      modifies this`started, this`startAttempts, world`log
      ensures Valid() && Sampled(world.log, serving, protected, target)
      ensures RoundsTold(world.log, serving, protected, Rounds(old(world.log)) + 1)
      ensures old(world.log) <= world.log && (Stop in old(world.log) <==> Stop in world.log)
      ensures Added(old(world.log) + [OutcomesRead(protected)], world.log, 2)
    {
      protected := world.ReadOutcomes();
      ghost var mid := world.log;
      OtherKeeps(old(world.log), OutcomesRead(protected));
      serving := SampleServing(target);
      SampleTells(old(world.log), mid, world.log, serving, protected, target);
    }

    /** Preflight, publication, restart, samples, inventory and a first verdict. It may end by an exception at any of
        them. */
    method Observe(target: string, samples: nat) returns (r: Option<Result>)
      requires Valid() && !stopSubmitted && world.log == []
      modifies this, world`log
      ensures Valid() && LedOn(world.log) && Paced(world.log) && (r.None? <==> Ended(world.log))
      ensures r.Some? ==>
        && Judged(world.log, r.value, target) && RoundsTold(world.log, r.value.serving, r.value.protected, samples)
        && world.log != [] && world.log[|world.log| - 1] == InventoryRead(r.value.inventory)
        && r.value.verdict == VerdictOf(r.value.serving, r.value.protected, r.value.inventory, target)
      ensures r.Some? && r.value.verdict == Pass ==> Earned(world.log, r.value, target)
    {
      var raised := MakeCall(Preflight);
      if raised {
        LedAt(world.log, 0);
        EndedOn([], Call(Preflight, true));
        return None;
      }
      var ended, serving, protected := SwitchOver(target, samples);
      if ended { return None; }
      ghost var sampled := world.log;
      var first := Conclude(target, samples, serving, protected);
      LedStays(sampled, world.log);
      PacedStays(sampled, world.log);
      r := Some(first);
    }

    /** Publication, restart and the rounds of samples, which are made even if what raised is no ordinary exception. */
    method SwitchOver(target: string, samples: nat) returns (ended: bool, serving: Serving, protected: seq<Outcome>)
      requires Valid() && !stopSubmitted && world.log == LEAD[..1]
      modifies this, world`log
      ensures Valid() && LedOn(world.log) && Paced(world.log) && (ended <==> Ended(world.log))
      ensures Sampled(world.log, serving, protected, target)
      ensures !ended ==> RoundsTold(world.log, serving, protected, samples)
    {
      var fatal := Publish();
      CountSame([], world.log, OfRound);
      ghost var published := world.log;
      var raised;
      raised, serving, protected := SampleAll(target, samples);
      LedStays(published, world.log);
      EndedLater(published, world.log, raised);
      ended := raised || fatal;
    }

    /** The rounds of samples, with a pause between them that may be ended by an exception. */
    method SampleAll(target: string, samples: nat)
      returns (raised: bool, serving: Serving, protected: seq<Outcome>)
      requires Valid() && Rounds(world.log) == 0 && BeforeRounds(world.log)
      modifies this`started, this`startAttempts, world`log
      ensures Valid() && Sampled(world.log, serving, protected, target)
      ensures old(world.log) <= world.log && (Stop in old(world.log) <==> Stop in world.log)
      ensures Paced(world.log) && EndsAtLast(old(world.log), world.log, raised)
      ensures !raised ==> RoundsTold(world.log, serving, protected, samples)
    {
      serving, protected := Unseen, [];
      for index := 0 to samples
        invariant Valid() && Sampled(world.log, serving, protected, target)
        invariant RoundsTold(world.log, serving, protected, index)
        invariant old(world.log) <= world.log && (Stop in old(world.log) <==> Stop in world.log)
        invariant Paced(world.log) && (index == 0 ==> BeforeRounds(world.log))
        invariant EndsAtLast(old(world.log), world.log, false)
      {
        ghost var before := world.log;
        raised, serving, protected := NextSample(target, index, serving, protected);
        EndsLater(old(world.log), before, world.log, raised);
        if raised { return; }
      }
      raised := false;
    }

    /** A pause, unless it is the first, and a round. */
    method NextSample(target: string, index: nat, was: Serving, before: seq<Outcome>)
      returns (raised: bool, serving: Serving, protected: seq<Outcome>)
      requires Valid() && RoundsTold(world.log, was, before, index)
      requires Paced(world.log) && (index == 0 ==> BeforeRounds(world.log))
      modifies this`started, this`startAttempts, world`log
      ensures Valid() && Sampled(world.log, serving, protected, target)
      ensures old(world.log) <= world.log && (Stop in old(world.log) <==> Stop in world.log)
      ensures Paced(world.log) && EndsAtLast(old(world.log), world.log, raised)
      ensures !raised ==> RoundsTold(world.log, serving, protected, index + 1)
    {
      if index > 0 {
        ghost var paused := world.log;
        raised := MakeCall(Pause);
        if raised {
          PacedStays(paused, world.log);
          return true, Unseen, [];
        }
        RoundsStand(paused, world.log, was, before, index);
      }
      serving, protected := PacedSample(target, index, was, before, old(world.log));
      raised := false;
    }

    /** A round, right after a pause unless it is the first. */
    method PacedSample(target: string, ghost index: nat, ghost was: Serving, ghost last: seq<Outcome>,
                       ghost before: seq<Event>)
      returns (serving: Serving, protected: seq<Outcome>)
      requires Valid() && Rounds(world.log) == index && Paced(before)
      requires if index == 0 then BeforeRounds(before) else RoundsTold(before, was, last, index)
      requires world.log == (if index == 0 then before else before + [Call(Pause, false)])
      modifies this`started, this`startAttempts, world`log
      ensures Valid() && Sampled(world.log, serving, protected, target)
      ensures RoundsTold(world.log, serving, protected, index + 1)
      ensures Paced(world.log) && EndsAtLast(before, world.log, false)
      ensures old(world.log) <= world.log && (Stop in old(world.log) <==> Stop in world.log)
    {
      serving, protected := Sample(target);
      PacedRound(before, old(world.log), world.log, protected, was, last, index);
    }

    /** The inventory, read once the samples are over, and the first verdict. */
    method Conclude(target: string, ghost samples: nat, serving: Serving, protected: seq<Outcome>) returns (r: Result)
      requires Valid() && Sampled(world.log, serving, protected, target)
      requires RoundsTold(world.log, serving, protected, samples)
      modifies world`log
      ensures Valid() && r.serving == serving && r.protected == protected
      ensures world.log == old(world.log) + [InventoryRead(r.inventory)]
      ensures Judged(world.log, r, target) && RoundsTold(world.log, serving, protected, samples)
      ensures r.verdict == VerdictOf(serving, protected, r.inventory, target)
      ensures r.verdict == Pass ==> Earned(world.log, r, target)
    {
      var inventory := world.ReadInventory();
      OtherKeeps(old(world.log), InventoryRead(inventory));
      RoundsStand(old(world.log), world.log, serving, protected, samples);
      r := Result(VerdictOf(serving, protected, inventory, target), serving, protected, inventory);
      JudgedAfter(world.log, world.log, r, target, false);
      if r.verdict == Pass { SampleEarns(old(world.log), r, target); }
    }

    /** Publication and restart. What either raises is noted, unless it is no ordinary exception. */
    method Publish() returns (fatal: bool)
      requires Valid() && !stopSubmitted && world.log == LEAD[..1]
      modifies this, world`log
      ensures Valid() && LedOn(world.log) && BeforeRounds(world.log)
      ensures fatal <==> Ended(world.log)
      ensures fatal && stopSubmitted ==> !started
    {
      fatal := MakeCall(Killed);
      if fatal {
        LedAt(world.log, 1);
        EndedOn(LEAD[..1], Call(Killed, true));
        return;
      }
      fatal := Restart();
    }

    /** The restart, if the publication did not raise. */
    method Restart() returns (fatal: bool)
      requires Valid() && !stopSubmitted && world.log == LEAD[..2]
      modifies this, world`log
      ensures Valid() && LedOn(world.log) && BeforeRounds(world.log)
      ensures fatal <==> Ended(world.log)
      ensures fatal && stopSubmitted ==> !started
    {
      var refused := MakeCall(Publication);
      if refused { LedAt(world.log, 2); return false; }
      ghost var before := world.log;
      fatal := Relocate();
      RelocationLed(before, world.log, stopSubmitted);
      if fatal {
        before := world.log;
        fatal := MakeCall(Killed);
        KilledOn(before, fatal);
      }
    }

    /** The whole run. Whether it ends with a result or by an exception, a submitted stop is answered by a start: the
        last the log says of the unit is that it was seen active with no queued job. A result quotes the last round
        of samples and the last inventory, and its verdict is the one they and a later recovery call for; it passes
        exactly if a pass was earned and nothing since took it back. */
    method Run(target: string, samples: nat, ghost settles: nat) returns (r: Option<Result>)
      requires Valid() && !stopSubmitted && world.log == [] && world.SettlesBy(settles)
      modifies this, world`log
      ensures world.Valid() && (Stop in world.log ==> Checked(world.log))
      ensures StartsFollow(world.log) && SignalsSafe(world.log)
      ensures LedOn(world.log) && Paced(world.log) && (r.None? <==> Ended(world.log))
      ensures r.Some? ==>
        RoundsTold(world.log, r.value.serving, r.value.protected, samples) && Judged(world.log, r.value, target)
      ensures r.Some? ==> (r.value.verdict == Pass <==> Earned(world.log, r.value, target))
    {
      r := Observe(target, samples);
      if stopSubmitted {
        ghost var observed := world.log;
        var attempts := startAttempts;
        var pending := Own(settles);
        LedStays(observed, world.log);
        PacedStays(observed, world.log);
        EndedStays(observed, world.log);
        if r.Some? {
          ghost var first := r.value;
          if pending || startAttempts != attempts { r := Some(r.value.(verdict := Fail)); }
          Concludes(observed, world.log, first, target, samples, pending);
        }
      } else if r.Some? && r.value.verdict != Pass {
        NoPass(world.log, r.value, target);
      }
    }

    /** Owns the start until the unit is active with no queued job. */
    method Own(ghost settles: nat) returns (pending: bool)
      requires Valid() && stopSubmitted && world.SettlesBy(settles)
      modifies this`started, this`startAttempts, world`log
      ensures Valid() && started && Added(old(world.log), world.log, 1)
      ensures !pending ==> forall j :: |old(world.log)| <= j < |world.log| ==> world.log[j] != Recovery(true)
      ensures pending ==>
        exists j :: |old(world.log)| <= j < |world.log| && (world.log[j].Start? || world.log[j] == Recovery(true))
    {
      pending := false;
      ghost var bad: nat := 0;
      while true
        invariant Valid() && stopSubmitted && Added(old(world.log), world.log, 1)
        invariant if !pending then world.log == old(world.log)
          else |old(world.log)| <= bad < |world.log| && (world.log[bad].Start? || world.log[bad] == Recovery(true))
        decreases if |world.log| < settles then settles - |world.log| else 0, !started
      {
        ghost var before := world.log;
        var raised := RecoverStart(START_ATTEMPTS);
        AddedOn(old(world.log), before, world.log, 1, 1);
        if raised { started := false; }
        if started { break; }
        bad := Failed(before, world.log, raised);
        pending := true;
      }
    }

    /** Where a recovery that did not find the unit active raised or submitted a start. */
    ghost function Failed(before: seq<Event>, after: seq<Event>, raised: bool): (j: nat)
      requires before + [Recovery(raised)] <= after && (raised || Starts(after) > Starts(before))
      ensures |before| <= j < |after| && (after[j].Start? || after[j] == Recovery(true))
    {
      if raised then |before|
      else
        NoStartBetween(after, |before|);
        assert after[..|before|] == before;
        var j :| |before| <= j < |after| && after[j].Start?;
        j
    }
  }
}
