/** The signal-domain launcher as interleaved steps of its processes: the waiting parent, the launcher inside the
    scope, the process inside the namespace, the Viewer that acknowledges, and whatever kills or stops them. */
module SignalLauncher {
  /** `direct`: the process was started inside its scope, so nobody waits outside it. */
  datatype Options = Options(direct: bool, receipt: bool, automatic: bool, guarded: bool)

  datatype Phase =
    | Absent
    | Start
    | Waiting     // the parent, for its child to end
    | Entering    // the child, before it marks its entry
    | Entered
    | Watching    // a namespace exists, no receipt yet
    | Published   // the receipt is out
    | Fallback    // about to run the engine unprotected
    | AwaitingAck
    | Cleared
    | Engine
    | Ended

  datatype Namespace = None | Started | Ready | Running | Gone

  datatype Receipt = Nothing | Off | Domain

  datatype State = State(
    parent: Phase, scoped: Phase, inner: Namespace, marked: bool, receipt: Receipt, published: bool, execFile: bool,
    acked: bool, selfAcked: bool, byParent: bool, byScoped: bool, byInner: bool,
    parentStopping: bool, scopedStopping: bool)

  function Initial(o: Options): State {
    State(if o.direct then Absent else Start, if o.direct then Entered else Absent, None, false, Nothing, false, false,
      false, false, false, false, false, false, false)
  }

  datatype Who = Parent | Scoped

  datatype Step =
    | Refuses(who: Who)          // a missing dependency, no scope, no fork, or a boundary that cannot be set up
    | Forks
    | Enters
    | Spawns
    | ProvesReady
    | Publishes
    | AcksItself
    | SetupFails                 // before the receipt: the namespace is killed and reaped
    | CommittedFails             // after it
    | Finishes                   // the namespace ended by itself
    | Reaps
    | Announces(who: Who)
    | SeesAck(who: Who)
    | Executes(who: Who)
    | FallbackFails(who: Who)
    | InnerExecutes
    | InnerDies
    | ScopedDies
    | ParentDies
    | StopsParent
    | StopsScoped
    | ViewerAcks

  function At(s: State, who: Who): Phase { if who.Parent? then s.parent else s.scoped }

  function Put(s: State, who: Who, p: Phase): (t: State)
    ensures t == s.(parent := t.parent, scoped := t.scoped) && At(t, who) == p
  {
    if who.Parent? then s.(parent := p) else s.(scoped := p)
  }

  /** A dead launcher takes its namespace along: the monitor binding and the namespace's own init see to that. */
  function Killed(n: Namespace): Namespace { if n.None? then None else Gone }

  function ScopedGone(s: State): State {
    s.(scoped := if s.scoped.Absent? then Absent else Ended, inner := Killed(s.inner))
  }

  predicate Ran(s: State) { s.byParent || s.byScoped || s.byInner }

  /** One step, or no change where it is not enabled. */
  function Take(o: Options, s: State, step: Step): State {
    match step
    case Refuses(who) =>
      if (who.Parent? && s.parent.Start?) || (who.Scoped? && s.scoped.Entered?) then Put(s, who, Fallback) else s
    case Forks => if s.parent.Start? then s.(parent := Waiting, scoped := Entering) else s
    case Enters => if s.scoped.Entering? then s.(scoped := Entered, marked := true) else s
    case Spawns => if s.scoped.Entered? then s.(scoped := Watching, inner := Started) else s
    case ProvesReady => if s.inner.Started? then s.(inner := Ready) else s
    case Publishes =>
      if s.scoped.Watching? && s.inner.Ready? then
        s.(scoped := Published, published := true, receipt := if o.receipt then Domain else s.receipt)
      else s
    case AcksItself =>
      if s.scoped.Published? && (!o.receipt || o.automatic) then s.(execFile := true, selfAcked := true) else s
    case SetupFails =>
      if s.scoped.Watching? then
        var t := s.(inner := Gone, execFile := false);
        if s.scopedStopping then t.(scoped := Ended) else t.(scoped := Fallback)
      else s
    case CommittedFails => if s.scoped.Published? then ScopedGone(s) else s
    case Finishes => if s.scoped.Published? && s.inner.Gone? then s.(scoped := Ended) else s
    case Reaps =>
      if s.parent.Waiting? && s.scoped.Ended? then
        if s.marked || s.parentStopping then s.(parent := Ended) else s.(parent := Fallback)
      else s
    case Announces(who) =>
      if !At(s, who).Fallback? then s
      else if o.guarded && !o.receipt then Put(s, who, Ended)
      else Put(s, who, if o.guarded then AwaitingAck else Cleared).(receipt := if o.receipt then Off else s.receipt)
    case SeesAck(who) => if At(s, who).AwaitingAck? && s.execFile then Put(s, who, Cleared) else s
    case Executes(who) =>
      if !At(s, who).Cleared? then s
      else if who.Parent? then s.(parent := Engine, byParent := true)
      else s.(scoped := Engine, byScoped := true)
    case FallbackFails(who) =>
      if At(s, who).Fallback? || At(s, who).AwaitingAck? || At(s, who).Cleared? then Put(s, who, Ended) else s
    case InnerExecutes => if s.inner.Ready? && s.execFile then s.(inner := Running, byInner := true) else s
    case InnerDies => if s.inner.None? then s else s.(inner := Gone)
    case ScopedDies =>
      if s.scoped.Absent? || s.scoped.Ended? then s else ScopedGone(s)
    case ParentDies =>
      if s.parent.Absent? || s.parent.Ended? then s else ScopedGone(s).(parent := Ended)
    case StopsParent => if s.parent.Waiting? then s.(parentStopping := true) else s
    case StopsScoped => if s.scoped.Watching? || s.scoped.Published? then s.(scopedStopping := true) else s
    case ViewerAcks =>
      if s.receipt.Domain? || (s.receipt.Off? && o.guarded) then s.(execFile := true, acked := true) else s
  }

  function Run(o: Options, steps: seq<Step>): State {
    if steps == [] then Initial(o) else Take(o, Run(o, steps[..|steps| - 1]), steps[|steps| - 1])
  }

  lemma RunOn(o: Options, steps: seq<Step>, step: Step)
    ensures Run(o, steps + [step]) == Take(o, Run(o, steps), step)
  {
    assert (steps + [step])[..|steps|] == steps;
  }

  predicate FallingBack(p: Phase) { p.Fallback? || p.AwaitingAck? || p.Cleared? || p.Engine? }

  /** How far the launcher inside the scope got. */
  predicate Progress(o: Options, s: State) {
    && (s.marked ==> !o.direct) && (o.direct <==> s.parent.Absent?)
    && (s.scoped.Absent? || s.scoped.Entering? ==> !s.marked && !o.direct)
    && (!s.marked && !o.direct ==>
          s.inner.None? && !s.published && !s.byScoped
          && (s.scoped.Absent? || s.scoped.Entering? || s.scoped.Ended?))
    && (s.parent.Start? ==> s.scoped.Absent? && s.receipt.Nothing?)
    && (s.scoped.Entering? ==> s.parent.Waiting? && s.receipt.Nothing?)
    && (s.byInner ==> s.inner.Running? || s.inner.Gone?)
    && (s.scoped.Entered? ==> s.inner.None? && !s.published && !s.byScoped)
    && (s.scoped.Watching? ==> !s.inner.None? && !s.inner.Running? && !s.published && !s.byScoped && !s.byInner)
    && (s.scoped.Published? ==> s.published && !s.inner.None? && !s.inner.Started?)
    && (s.scoped.Ended? ==> s.inner.None? || s.inner.Gone?)
  }

  /** Who may run the engine, and when. */
  predicate Exclusive(o: Options, s: State) {
    && (FallingBack(s.parent) || s.byParent ==> !s.marked && !o.direct && (s.scoped.Absent? || s.scoped.Ended?))
    && (FallingBack(s.scoped) || s.byScoped ==> !s.published && (s.inner.None? || s.inner.Gone?) && !s.byInner)
    && (s.inner.Running? || s.byInner ==> s.published && (s.acked || s.selfAcked))
    && (s.selfAcked ==> s.published && (!o.receipt || o.automatic))
    && (s.parent.Engine? ==> s.byParent) && (s.scoped.Engine? ==> s.byScoped)
    && (s.byParent ==> s.parent.Engine? || s.parent.Ended?) && (s.byScoped ==> s.scoped.Engine? || s.scoped.Ended?)
    && (s.parent.AwaitingAck? || s.scoped.AwaitingAck? ==> o.guarded && o.receipt)
  }

  /** What the shared files say. */
  predicate Files(o: Options, s: State) {
    && (s.execFile ==> s.acked || s.selfAcked)
    && (s.receipt.Domain? ==> s.published && o.receipt)
    && (s.receipt.Off? ==>
          o.receipt && !s.published && (s.inner.None? || s.inner.Gone?) && !s.scoped.Entered? && !s.scoped.Entering?)
    && (s.execFile ==> s.published || s.receipt.Off?)
    && ((s.parent.Cleared? || s.scoped.Cleared? || s.byParent || s.byScoped) && o.guarded ==> s.acked && o.receipt)
    && (s.scoped.Watching? ==> !s.execFile && s.receipt.Nothing?)
  }

  predicate Invariant(o: Options, s: State) {
    Progress(o, s) && Exclusive(o, s) && Files(o, s)
  }

  /** Steps both launchers share: giving up the boundary and running the engine unprotected. */
  predicate FallbackStep(step: Step) {
    step.Refuses? || step.Announces? || step.SeesAck? || step.Executes? || step.FallbackFails?
  }

  predicate ScopeStep(step: Step) {
    || step.Forks? || step.Enters? || step.Reaps? || step.Spawns? || step.Publishes? || step.AcksItself?
    || step.SetupFails? || step.CommittedFails? || step.Finishes?
  }

  lemma RefusesKeeps(o: Options, s: State, who: Who)
    requires Invariant(o, s)
    ensures Invariant(o, Take(o, s, Refuses(who)))
  {
    if who.Parent? { } else { }
  }

  lemma AnnouncesKeeps(o: Options, s: State, who: Who)
    requires Invariant(o, s)
    ensures Invariant(o, Take(o, s, Announces(who)))
  {
    if who.Parent? { } else { }
  }

  lemma AckKeeps(o: Options, s: State, who: Who)
    requires Invariant(o, s)
    ensures Invariant(o, Take(o, s, SeesAck(who)))
  {
    if who.Parent? { } else { }
  }

  lemma ExecutesKeeps(o: Options, s: State, who: Who)
    requires Invariant(o, s)
    ensures Invariant(o, Take(o, s, Executes(who)))
  {
    if who.Parent? { } else { }
  }

  lemma FallbackFailsKeeps(o: Options, s: State, who: Who)
    requires Invariant(o, s)
    ensures Invariant(o, Take(o, s, FallbackFails(who)))
  {
    if who.Parent? { } else { }
  }

  lemma ScopeKeeps(o: Options, s: State, step: Step)
    requires Invariant(o, s) && ScopeStep(step)
    ensures Invariant(o, Take(o, s, step))
  {
  }

  lemma WorldKeeps(o: Options, s: State, step: Step)
    requires Invariant(o, s) && !FallbackStep(step) && !ScopeStep(step)
    ensures Invariant(o, Take(o, s, step))
  {
  }

  lemma TakeKeeps(o: Options, s: State, step: Step)
    requires Invariant(o, s)
    ensures Invariant(o, Take(o, s, step))
  {
    match step
    case Refuses(who) => RefusesKeeps(o, s, who);
    case Announces(who) => AnnouncesKeeps(o, s, who);
    case SeesAck(who) => AckKeeps(o, s, who);
    case Executes(who) => ExecutesKeeps(o, s, who);
    case FallbackFails(who) => FallbackFailsKeeps(o, s, who);
    case _ => if ScopeStep(step) { ScopeKeeps(o, s, step); } else { WorldKeeps(o, s, step); }
  }

  lemma {:induction false} EveryRun(o: Options, steps: seq<Step>)
    ensures Invariant(o, Run(o, steps))
  {
    if steps != [] {
      EveryRun(o, steps[..|steps| - 1]);
      TakeKeeps(o, Run(o, steps[..|steps| - 1]), steps[|steps| - 1]);
    }
  }

  function Executions(s: State): nat {
    (if s.byParent then 1 else 0) + (if s.byScoped then 1 else 0) + (if s.byInner then 1 else 0)
  }

  /** Whatever is refused, dies or is stopped, and in whatever order, the engine is executed at most once. */
  lemma AtMostOnce(o: Options, steps: seq<Step>)
    ensures Executions(Run(o, steps)) <= 1
  {
    EveryRun(o, steps);
  }

  /** Every step that executes the engine is the first that does. */
  lemma ExecutesFirst(o: Options, steps: seq<Step>, who: Who)
    ensures var s := Run(o, steps); At(s, who).Cleared? || (s.inner.Ready? && s.execFile) ==> Executions(s) == 0
  {
    EveryRun(o, steps);
    AboutToExecute(o, Run(o, steps), who);
  }

  lemma AboutToExecute(o: Options, s: State, who: Who)
    requires Invariant(o, s)
    ensures At(s, who).Cleared? || (s.inner.Ready? && s.execFile) ==> Executions(s) == 0
  {
  }

  /** The waiting parent runs the engine only after its child, and the child's namespace, ended without the entry
      mark. */
  lemma ParentOnlyUnmarked(o: Options, steps: seq<Step>)
    ensures Run(o, steps).byParent ==>
      !Run(o, steps).marked && (Run(o, steps).scoped.Absent? || Run(o, steps).scoped.Ended?)
        && Run(o, steps).inner.None?
  {
    EveryRun(o, steps);
  }

  /** Once a boundary's receipt is published, no continuation of the run falls back. */
  lemma NoFallbackAfterReceipt(o: Options, steps: seq<Step>, more: seq<Step>)
    requires Run(o, steps).published
    ensures var s := Run(o, steps + more); s.published && !s.byParent && !s.byScoped && !s.receipt.Off?
  {
    StaysPublished(o, steps, more);
    EveryRun(o, steps + more);
    Committed(o, Run(o, steps + more));
  }

  lemma Committed(o: Options, s: State)
    requires Invariant(o, s) && s.published
    ensures !s.byParent && !s.byScoped && !s.receipt.Off?
  {
  }

  predicate ReceiptOut(s: State) { s.published }

  lemma TakePublished(o: Options, s: State, step: Step)
    requires Invariant(o, s) && ReceiptOut(s)
    ensures ReceiptOut(Take(o, s, step))
  {
  }

  lemma {:induction false} StaysPublished(o: Options, steps: seq<Step>, more: seq<Step>)
    requires Run(o, steps).published
    ensures Run(o, steps + more).published
    decreases |more|
  {
    if more == [] {
      assert steps + more == steps;
    } else {
      var all, last := steps + more, |more| - 1;
      StaysPublished(o, steps, more[..last]);
      assert all[..|all| - 1] == steps + more[..last];
      EveryRun(o, all[..|all| - 1]);
      TakePublished(o, Run(o, all[..|all| - 1]), all[|all| - 1]);
    }
  }

  /** A guarded launch executes nothing before the Viewer acknowledged, unless the launch acknowledges itself. */
  lemma GuardedNeedsAck(o: Options, steps: seq<Step>)
    requires o.guarded && o.receipt && !o.automatic
    ensures Executions(Run(o, steps)) > 0 ==> Run(o, steps).acked
  {
    EveryRun(o, steps);
  }

  /** What the receipt says is so, and a launcher told to stop does not fall back. */
  predicate Announced(o: Options, s: State) {
    && (s.published && o.receipt ==> s.receipt.Domain?)
    && (o.receipt && (Sure(s.parent) || Sure(s.scoped) || s.byParent || s.byScoped) ==> s.receipt.Off?)
    && (s.parentStopping ==> (s.parent.Waiting? || s.parent.Ended?) && !s.byParent)
    && (s.scopedStopping ==> (s.scoped.Watching? || s.scoped.Published? || s.scoped.Ended?) && !s.byScoped)
  }

  /** No launcher is in a phase of the other's, and a parent that waits has a child. */
  predicate InPlace(s: State) {
    && !s.parent.Entering? && !s.parent.Entered? && !s.parent.Watching? && !s.parent.Published?
    && !s.scoped.Start? && !s.scoped.Waiting? && (s.scoped.Absent? ==> !s.parent.Waiting?)
    && (s.inner.Running? ==> s.byInner)
  }

  /** Past the announcement of a fallback. */
  predicate Sure(p: Phase) { p.AwaitingAck? || p.Cleared? || p.Engine? }

  lemma RefusesAnnounced(o: Options, s: State, who: Who)
    requires Invariant(o, s) && Announced(o, s) && InPlace(s)
    ensures Announced(o, Take(o, s, Refuses(who))) && InPlace(Take(o, s, Refuses(who)))
  {
    if who.Parent? { } else { }
  }

  lemma AnnouncesAnnounced(o: Options, s: State, who: Who)
    requires Invariant(o, s) && Announced(o, s) && InPlace(s)
    ensures Announced(o, Take(o, s, Announces(who))) && InPlace(Take(o, s, Announces(who)))
  {
    if who.Parent? { } else { }
  }

  lemma AckAnnounced(o: Options, s: State, who: Who)
    requires Invariant(o, s) && Announced(o, s) && InPlace(s)
    ensures Announced(o, Take(o, s, SeesAck(who))) && InPlace(Take(o, s, SeesAck(who)))
  {
    if who.Parent? { } else { }
  }

  lemma ExecutesAnnounced(o: Options, s: State, who: Who)
    requires Invariant(o, s) && Announced(o, s) && InPlace(s)
    ensures Announced(o, Take(o, s, Executes(who))) && InPlace(Take(o, s, Executes(who)))
  {
    if who.Parent? { } else { }
  }

  lemma FailsAnnounced(o: Options, s: State, who: Who)
    requires Invariant(o, s) && Announced(o, s) && InPlace(s)
    ensures Announced(o, Take(o, s, FallbackFails(who))) && InPlace(Take(o, s, FallbackFails(who)))
  {
    if who.Parent? { } else { }
  }

  lemma FallbackAnnounces(o: Options, s: State, step: Step)
    requires Invariant(o, s) && Announced(o, s) && InPlace(s) && FallbackStep(step)
    ensures Announced(o, Take(o, s, step)) && InPlace(Take(o, s, step))
  {
    match step
    case Refuses(who) => RefusesAnnounced(o, s, who);
    case Announces(who) => AnnouncesAnnounced(o, s, who);
    case SeesAck(who) => AckAnnounced(o, s, who);
    case Executes(who) => ExecutesAnnounced(o, s, who);
    case FallbackFails(who) => FailsAnnounced(o, s, who);
  }

  lemma ScopeAnnounces(o: Options, s: State, step: Step)
    requires Invariant(o, s) && Announced(o, s) && InPlace(s) && ScopeStep(step)
    ensures Announced(o, Take(o, s, step)) && InPlace(Take(o, s, step))
  {
    ScopeAnnounced(o, s, step);
    ScopeInPlace(o, s, step);
  }

  lemma ScopeAnnounced(o: Options, s: State, step: Step)
    requires Invariant(o, s) && Announced(o, s) && ScopeStep(step)
    ensures Announced(o, Take(o, s, step))
  {
  }

  lemma ScopeInPlace(o: Options, s: State, step: Step)
    requires Invariant(o, s) && InPlace(s) && ScopeStep(step)
    ensures InPlace(Take(o, s, step))
  {
  }

  lemma WorldAnnounces(o: Options, s: State, step: Step)
    requires Invariant(o, s) && Announced(o, s) && InPlace(s) && !FallbackStep(step) && !ScopeStep(step)
    ensures Announced(o, Take(o, s, step)) && InPlace(Take(o, s, step))
  {
  }

  lemma {:induction false} EveryRunAnnounced(o: Options, steps: seq<Step>)
    ensures Announced(o, Run(o, steps)) && InPlace(Run(o, steps))
  {
    if steps != [] {
      var n := |steps| - 1;
      EveryRun(o, steps[..n]);
      EveryRunAnnounced(o, steps[..n]);
      var s := Run(o, steps[..n]);
      if FallbackStep(steps[n]) {
        FallbackAnnounces(o, s, steps[n]);
      } else if ScopeStep(steps[n]) {
        ScopeAnnounces(o, s, steps[n]);
      } else {
        WorldAnnounces(o, s, steps[n]);
      }
    }
  }

  /** A receipt that was asked for tells whether the engine that ran is inside the boundary. */
  lemma ReceiptTells(o: Options, steps: seq<Step>)
    requires o.receipt && Ran(Run(o, steps))
    ensures var s := Run(o, steps); if s.byInner then s.receipt.Domain? else s.receipt.Off?
  {
    EveryRun(o, steps);
    EveryRunAnnounced(o, steps);
  }

  /** Inside the boundary the engine waits for its acknowledgement, guarded or not. */
  lemma InnerNeedsAck(o: Options, steps: seq<Step>)
    requires Run(o, steps).byInner
    ensures Run(o, steps).acked || (Run(o, steps).selfAcked && (!o.receipt || o.automatic))
  {
    EveryRun(o, steps);
  }

  predicate ParentTold(s: State) { s.parentStopping }

  predicate ScopedTold(s: State) { s.scopedStopping }

  predicate SameTold(s: State, t: State) {
    t.parentStopping == s.parentStopping && t.scopedStopping == s.scopedStopping
  }

  lemma RefusesTold(o: Options, s: State, who: Who)
    ensures SameTold(s, Take(o, s, Refuses(who)))
  {
  }

  lemma AnnouncesTold(o: Options, s: State, who: Who)
    ensures SameTold(s, Take(o, s, Announces(who)))
  {
  }

  lemma AckTold(o: Options, s: State, who: Who)
    ensures SameTold(s, Take(o, s, SeesAck(who)))
  {
  }

  lemma ExecutesTold(o: Options, s: State, who: Who)
    ensures SameTold(s, Take(o, s, Executes(who)))
  {
  }

  lemma FailsTold(o: Options, s: State, who: Who)
    ensures SameTold(s, Take(o, s, FallbackFails(who)))
  {
  }

  lemma FallbackTold(o: Options, s: State, step: Step)
    requires FallbackStep(step)
    ensures SameTold(s, Take(o, s, step))
  {
    match step
    case Refuses(who) => RefusesTold(o, s, who);
    case Announces(who) => AnnouncesTold(o, s, who);
    case SeesAck(who) => AckTold(o, s, who);
    case Executes(who) => ExecutesTold(o, s, who);
    case FallbackFails(who) => FailsTold(o, s, who);
  }

  lemma ScopeTold(o: Options, s: State, step: Step)
    requires ScopeStep(step)
    ensures ParentTold(s) ==> ParentTold(Take(o, s, step))
    ensures ScopedTold(s) ==> ScopedTold(Take(o, s, step))
  {
  }

  lemma WorldTold(o: Options, s: State, step: Step)
    requires !FallbackStep(step) && !ScopeStep(step)
    ensures ParentTold(s) ==> ParentTold(Take(o, s, step))
    ensures ScopedTold(s) ==> ScopedTold(Take(o, s, step))
  {
  }

  lemma RunTold(o: Options, steps: seq<Step>, step: Step)
    ensures ParentTold(Run(o, steps)) ==> ParentTold(Run(o, steps + [step]))
    ensures ScopedTold(Run(o, steps)) ==> ScopedTold(Run(o, steps + [step]))
  {
    var s := Run(o, steps);
    if FallbackStep(step) {
      FallbackTold(o, s, step);
    } else if ScopeStep(step) {
      ScopeTold(o, s, step);
    } else {
      WorldTold(o, s, step);
    }
    RunOn(o, steps, step);
  }

  lemma {:induction false} StaysTold(o: Options, steps: seq<Step>, more: seq<Step>)
    ensures ParentTold(Run(o, steps)) ==> ParentTold(Run(o, steps + more))
    ensures ScopedTold(Run(o, steps)) ==> ScopedTold(Run(o, steps + more))
    decreases |more|
  {
    if more == [] {
      assert steps + more == steps;
    } else {
      var last := |more| - 1;
      StaysTold(o, steps, more[..last]);
      assert steps + more == steps + more[..last] + [more[last]];
      RunTold(o, steps + more[..last], more[last]);
    }
  }

  /** A waiting parent that is told to stop never runs the engine, and neither does a scoped launcher told so while its
      namespace is set up. */
  lemma StopIsHeeded(o: Options, steps: seq<Step>, more: seq<Step>)
    ensures Run(o, steps).parent.Waiting? ==> !Run(o, steps + [StopsParent] + more).byParent
    ensures Run(o, steps).scoped.Watching? ==> !Run(o, steps + [StopsScoped] + more).byScoped
  {
    RunOn(o, steps, StopsParent);
    RunOn(o, steps, StopsScoped);
    if Run(o, steps).parent.Waiting? {
      StaysTold(o, steps + [StopsParent], more);
      EveryRunAnnounced(o, steps + [StopsParent] + more);
    }
    if Run(o, steps).scoped.Watching? {
      StaysTold(o, steps + [StopsScoped], more);
      EveryRunAnnounced(o, steps + [StopsScoped] + more);
    }
  }

  predicate Over(s: State) {
    && (s.parent.Absent? || s.parent.Ended?) && (s.scoped.Absent? || s.scoped.Ended?)
    && (s.inner.None? || s.inner.Gone?)
  }

  /** The steps after which the engine may rightly never run: the waiting parent is told to stop; the scoped launcher
      is, and its setup then fails; the boundary fails, or its process dies, after the receipt; a fallback fails, or is
      guarded without a receipt to announce; or a launcher past the parent's reach dies before anyone ran. */
  predicate Excuses(o: Options, s: State, step: Step) {
    match step
    case StopsParent => s.parent.Waiting?
    case SetupFails => s.scoped.Watching? && s.scopedStopping
    case CommittedFails => s.scoped.Published?
    case InnerDies => s.scoped.Published? && !s.byInner
    case FallbackFails(who) => At(s, who).Fallback? || At(s, who).AwaitingAck? || At(s, who).Cleared?
    case Announces(who) => At(s, who).Fallback? && o.guarded && !o.receipt
    case ScopedDies => !(s.scoped.Absent? || s.scoped.Entering? || s.scoped.Ended?) && !Ran(s)
    case ParentDies => !(s.parent.Absent? || s.parent.Ended?) && !Ran(s)
    case _ => false
  }

  /** Some step of the run was one of those. */
  predicate Excused(o: Options, steps: seq<Step>) {
    steps != [] && var n := |steps| - 1; Excused(o, steps[..n]) || Excuses(o, Run(o, steps[..n]), steps[n])
  }

  lemma ExcusedOn(o: Options, steps: seq<Step>, step: Step)
    ensures Excused(o, steps + [step]) <==> Excused(o, steps) || Excuses(o, Run(o, steps), step)
  {
    assert (steps + [step])[..|steps|] == steps;
  }

  /** An engine that never ran has its reason. */
  predicate Accounted(o: Options, s: State, excused: bool) {
    || excused
    || (&& (s.scoped.Ended? && (s.marked || o.direct) ==> s.byScoped || s.byInner)
        && (s.parent.Ended? && !s.marked ==> s.byParent)
        && (s.parent.Ended? && s.marked ==> s.scoped.Ended?)
        && (s.scoped.Published? && s.inner.Gone? ==> s.byInner)
        && !s.parentStopping)
  }

  lemma TakeAccounts(o: Options, s: State, step: Step, excused: bool)
    requires Invariant(o, s) && Accounted(o, s, excused)
    ensures Accounted(o, Take(o, s, step), excused || Excuses(o, s, step))
  {
    match step
    case Refuses(who) => if who.Parent? { } else { }
    case Announces(who) => if who.Parent? { } else { }
    case SeesAck(who) => if who.Parent? { } else { }
    case Executes(who) => if who.Parent? { } else { }
    case FallbackFails(who) => if who.Parent? { } else { }
    case _ =>
  }

  lemma {:induction false} EveryRunAccounts(o: Options, steps: seq<Step>)
    ensures Accounted(o, Run(o, steps), Excused(o, steps))
  {
    if steps != [] {
      var n := |steps| - 1;
      EveryRun(o, steps[..n]);
      EveryRunAccounts(o, steps[..n]);
      TakeAccounts(o, Run(o, steps[..n]), steps[n], Excused(o, steps[..n]));
    }
  }

  /** When everyone is gone the engine ran exactly once, unless one of the excusing steps was taken: no refusal, no
      death before the entry and no acknowledgement order loses it. */
  lemma RanUnlessExcused(o: Options, steps: seq<Step>)
    requires Over(Run(o, steps)) && !Excused(o, steps)
    ensures Executions(Run(o, steps)) == 1
  {
    EveryRun(o, steps);
    EveryRunAccounts(o, steps);
  }

  /** A launch that demands an acknowledgement and has no receipt to ask for it with has no fallback. */
  predicate NoFallback(o: Options) { o.guarded && !o.receipt }

  /** Somebody can still come to run the engine. */
  predicate Still(o: Options, s: State) {
    || s.parent.Start? || s.scoped.Entering? || s.scoped.Entered?
    || (s.scoped.Watching? && !s.inner.Gone?) || (s.scoped.Published? && s.inner.Ready?)
    || (!NoFallback(o) && (ByParentNext(s) || ByScopedNext(s)))
  }

  /** Nobody but the waiting parent can run the engine now. */
  predicate ByParentNext(s: State) {
    || s.parent.Fallback? || s.parent.AwaitingAck? || s.parent.Cleared?
    || (s.parent.Waiting? && s.scoped.Ended? && !s.marked && !s.parentStopping)
  }

  /** Nobody but the launcher inside the scope can run the engine now. */
  predicate ByScopedNext(s: State) {
    || s.scoped.Fallback? || s.scoped.AwaitingAck? || s.scoped.Cleared?
    || (s.scoped.Watching? && s.inner.Gone? && !s.scopedStopping)
  }

  /** What brings the engine closer, for the launchers' fallback and for the protected path. */
  function Next(o: Options, s: State): Step {
    if s.parent.Start? then Forks
    else if ByParentNext(s) then FallbackNext(s, Parent)
    else if ByScopedNext(s) then FallbackNext(s, Scoped)
    else if s.scoped.Entering? then Enters
    else if s.scoped.Entered? then Spawns
    else if s.scoped.Watching? then if s.inner.Started? then ProvesReady else Publishes
    else if s.execFile then InnerExecutes
    else if o.receipt && !o.automatic then ViewerAcks
    else AcksItself
  }

  function FallbackNext(s: State, who: Who): Step {
    match At(s, who)
    case Waiting => Reaps
    case Watching => SetupFails
    case Fallback => Announces(who)
    case AwaitingAck => if s.execFile then SeesAck(who) else ViewerAcks
    case _ => Executes(who)
  }

  /** How many of those steps are left at most. */
  function Left(s: State): nat {
    if s.parent.Start? then 13
    else if ByParentNext(s) then FallbackLeft(s, Parent)
    else if ByScopedNext(s) then FallbackLeft(s, Scoped)
    else if s.scoped.Entering? then 12
    else if s.scoped.Entered? then 11
    else if s.scoped.Watching? then if s.inner.Started? then 10 else 9
    else if s.execFile then 1
    else 2
  }

  function FallbackLeft(s: State, who: Who): nat {
    match At(s, who)
    case Fallback => 5
    case AwaitingAck => if s.execFile then 3 else 4
    case Cleared => 2
    case _ => 6
  }

  /** The step runs the engine or leaves fewer to take, does not change whose turn it is, and is no excuse. */
  predicate Helps(o: Options, s: State, step: Step) {
    var t := Take(o, s, step);
    && !Excuses(o, s, step) && (Ran(t) || (Still(o, t) && Left(t) < Left(s)))
    && (if Ran(t) then t.byParent else ByParentNext(t)) == ByParentNext(s)
    && (if Ran(t) then t.byScoped else ByScopedNext(t)) == ByScopedNext(s)
  }

  lemma ParentHelps(o: Options, s: State)
    requires Invariant(o, s) && Announced(o, s) && InPlace(s) && Still(o, s) && !Ran(s) && ByParentNext(s)
    ensures Next(o, s) == FallbackNext(s, Parent) && Helps(o, s, FallbackNext(s, Parent))
  {
    assert !s.parent.Start? && !s.scoped.Entering? && !ByScopedNext(s) && !NoFallback(o);
    if s.parent.Waiting? {
      ParentReaps(o, s);
    } else if s.parent.Fallback? {
      ParentAnnounces(o, s);
    } else {
      ParentConcludes(o, s);
    }
  }

  lemma ParentReaps(o: Options, s: State)
    requires Invariant(o, s) && InPlace(s) && !NoFallback(o) && !Ran(s) && ByParentNext(s) && !ByScopedNext(s)
    requires s.parent.Waiting?
    ensures Helps(o, s, Reaps)
  {
    assert Take(o, s, Reaps) == s.(parent := Fallback);
  }

  lemma ParentAnnounces(o: Options, s: State)
    requires Invariant(o, s) && InPlace(s) && !NoFallback(o) && !Ran(s) && !ByScopedNext(s) && s.parent.Fallback?
    ensures Helps(o, s, Announces(Parent))
  {
    assert Take(o, s, Announces(Parent)) == s.(parent := if o.guarded then AwaitingAck else Cleared,
      receipt := if o.receipt then Off else s.receipt);
  }

  lemma ParentConcludes(o: Options, s: State)
    requires Invariant(o, s) && Announced(o, s) && InPlace(s) && !NoFallback(o) && !Ran(s) && !ByScopedNext(s)
    requires s.parent.AwaitingAck? || s.parent.Cleared?
    ensures Helps(o, s, FallbackNext(s, Parent))
  {
    if s.parent.Cleared? {
      assert Take(o, s, Executes(Parent)) == s.(parent := Engine, byParent := true);
    } else if s.execFile {
      assert Take(o, s, SeesAck(Parent)) == s.(parent := Cleared);
    } else {
      assert s.receipt.Off? && o.guarded;
      assert Take(o, s, ViewerAcks) == s.(execFile := true, acked := true);
    }
  }

  lemma ScopedHelps(o: Options, s: State)
    requires Invariant(o, s) && Announced(o, s) && InPlace(s) && Still(o, s) && !Ran(s) && ByScopedNext(s)
    ensures Next(o, s) == FallbackNext(s, Scoped) && Helps(o, s, FallbackNext(s, Scoped))
  {
    assert !s.parent.Start? && !ByParentNext(s) && !NoFallback(o);
    if s.scoped.Watching? {
      ScopedGivesUp(o, s);
    } else if s.scoped.Fallback? {
      ScopedAnnounces(o, s);
    } else {
      ScopedConcludes(o, s);
    }
  }

  lemma ScopedGivesUp(o: Options, s: State)
    requires Invariant(o, s) && Announced(o, s) && InPlace(s) && !NoFallback(o) && !Ran(s) && ByScopedNext(s)
    requires s.scoped.Watching? && !ByParentNext(s) && !s.parent.Start?
    ensures Helps(o, s, SetupFails)
  {
    assert Take(o, s, SetupFails) == s.(inner := Gone, execFile := false, scoped := Fallback);
  }

  lemma ScopedAnnounces(o: Options, s: State)
    requires Invariant(o, s) && Announced(o, s) && InPlace(s) && !NoFallback(o) && !Ran(s)
    requires s.scoped.Fallback? && !ByParentNext(s) && !s.parent.Start?
    ensures Helps(o, s, Announces(Scoped))
  {
    assert Take(o, s, Announces(Scoped)) == s.(scoped := if o.guarded then AwaitingAck else Cleared,
      receipt := if o.receipt then Off else s.receipt);
  }

  lemma ScopedConcludes(o: Options, s: State)
    requires Invariant(o, s) && Announced(o, s) && InPlace(s) && !NoFallback(o) && !Ran(s) && ByScopedNext(s)
    requires (s.scoped.AwaitingAck? || s.scoped.Cleared?) && !ByParentNext(s) && !s.parent.Start?
    ensures Helps(o, s, FallbackNext(s, Scoped))
  {
    if s.scoped.Cleared? {
      assert Take(o, s, Executes(Scoped)) == s.(scoped := Engine, byScoped := true);
    } else if s.execFile {
      assert Take(o, s, SeesAck(Scoped)) == s.(scoped := Cleared);
    } else {
      assert s.receipt.Off? && o.guarded;
      assert Take(o, s, ViewerAcks) == s.(execFile := true, acked := true);
    }
  }

  lemma SetupHelps(o: Options, s: State)
    requires Invariant(o, s) && Announced(o, s) && InPlace(s) && Still(o, s) && !Ran(s)
    requires !ByParentNext(s) && !ByScopedNext(s) && !s.scoped.Published?
    ensures Helps(o, s, Next(o, s))
  {
    if s.scoped.Watching? { WatchHelps(o, s); } else { EntryHelps(o, s); }
  }

  lemma EntryHelps(o: Options, s: State)
    requires Invariant(o, s) && Announced(o, s) && InPlace(s) && Still(o, s) && !Ran(s)
    requires !ByParentNext(s) && !ByScopedNext(s) && !s.scoped.Published? && !s.scoped.Watching?
    ensures Helps(o, s, Next(o, s))
  {
    if s.parent.Start? {
      assert Take(o, s, Forks) == s.(parent := Waiting, scoped := Entering);
    } else if s.scoped.Entering? {
      assert Take(o, s, Enters) == s.(scoped := Entered, marked := true);
    } else {
      assert Take(o, s, Spawns) == s.(scoped := Watching, inner := Started);
    }
  }

  lemma WatchHelps(o: Options, s: State)
    requires Invariant(o, s) && Announced(o, s) && InPlace(s) && Still(o, s) && !Ran(s)
    requires !ByParentNext(s) && !ByScopedNext(s) && s.scoped.Watching?
    ensures Helps(o, s, Next(o, s))
  {
    assert !s.parent.Start? && !s.execFile && (s.inner.Started? || s.inner.Ready?);
    if s.inner.Started? {
      assert Take(o, s, ProvesReady) == s.(inner := Ready);
    } else {
      assert Take(o, s, Publishes)
        == s.(scoped := Published, published := true, receipt := if o.receipt then Domain else s.receipt);
    }
  }

  lemma InnerHelps(o: Options, s: State)
    requires Invariant(o, s) && Announced(o, s) && InPlace(s) && Still(o, s) && !Ran(s)
    requires !ByParentNext(s) && !ByScopedNext(s) && s.scoped.Published?
    ensures Helps(o, s, Next(o, s))
  {
    assert s.inner.Ready? && !s.parent.Start?;
    assert Next(o, s) == if s.execFile then InnerExecutes else if o.receipt && !o.automatic then ViewerAcks else AcksItself;
    if s.execFile {
      assert Take(o, s, InnerExecutes) == s.(inner := Running, byInner := true);
    } else if o.receipt && !o.automatic {
      assert Take(o, s, ViewerAcks) == s.(execFile := true, acked := true);
    } else {
      assert Take(o, s, AcksItself) == s.(execFile := true, selfAcked := true);
    }
  }

  lemma NextHelps(o: Options, s: State)
    requires Invariant(o, s) && Announced(o, s) && InPlace(s) && Still(o, s) && !Ran(s)
    ensures Helps(o, s, Next(o, s))
  {
    if ByParentNext(s) {
      ParentHelps(o, s);
    } else if ByScopedNext(s) {
      ScopedHelps(o, s);
    } else if s.scoped.Published? {
      InnerHelps(o, s);
    } else {
      SetupHelps(o, s);
    }
  }

  /** From everywhere the engine can still be run, it can be run, excusing nothing: by the launcher whose fallback is
      under way, and otherwise, a published receipt included, by the process inside the namespace. */
  lemma {:induction false} StillRuns(o: Options, steps: seq<Step>) returns (more: seq<Step>)
    requires var s := Run(o, steps); Still(o, s) && !Ran(s)
    ensures var s, t := Run(o, steps), Run(o, steps + more);
      && Executions(t) == 1 && (t.byParent <==> ByParentNext(s)) && (t.byScoped <==> ByScopedNext(s))
    ensures Excused(o, steps + more) <==> Excused(o, steps)
    decreases Left(Run(o, steps))
  {
    var s := Run(o, steps);
    EveryRun(o, steps);
    EveryRunAnnounced(o, steps);
    NextHelps(o, s);
    RunOn(o, steps, Next(o, s));
    ExcusedOn(o, steps, Next(o, s));
    var later := steps + [Next(o, s)];
    if Ran(Run(o, later)) {
      AtMostOnce(o, later);
      more := [Next(o, s)];
    } else {
      var rest := StillRuns(o, later);
      more := [Next(o, s)] + rest;
      assert steps + more == later + rest;
    }
  }

  /** Once nobody can run the engine any more, nobody ever does. */
  lemma HopelessStays(o: Options, s: State, step: Step)
    requires Invariant(o, s) && Announced(o, s) && InPlace(s) && !Still(o, s) && !Ran(s)
    ensures var t := Take(o, s, step); !Still(o, t) && !Ran(t)
  {
    if FallbackStep(step) {
      HopelessFallback(o, s, step);
    } else if ScopeStep(step) {
      HopelessScope(o, s, step);
    }
  }

  lemma HopelessFallback(o: Options, s: State, step: Step)
    requires Invariant(o, s) && Announced(o, s) && InPlace(s) && !Still(o, s) && !Ran(s) && FallbackStep(step)
    ensures var t := Take(o, s, step); !Still(o, t) && !Ran(t)
  {
    match step
    case Refuses(who) => if who.Parent? { } else { }
    case Announces(who) => if who.Parent? { } else { }
    case SeesAck(who) => if who.Parent? { } else { }
    case Executes(who) => if who.Parent? { } else { }
    case FallbackFails(who) => if who.Parent? { } else { }
  }

  lemma HopelessScope(o: Options, s: State, step: Step)
    requires Invariant(o, s) && Announced(o, s) && InPlace(s) && !Still(o, s) && !Ran(s) && ScopeStep(step)
    ensures var t := Take(o, s, step); !Still(o, t) && !Ran(t)
  {
  }

  lemma {:induction false} NeverRuns(o: Options, steps: seq<Step>, more: seq<Step>)
    requires var s := Run(o, steps); !Still(o, s) && !Ran(s)
    ensures var t := Run(o, steps + more); !Still(o, t) && !Ran(t)
    decreases |more|
  {
    if more == [] {
      assert steps + more == steps;
    } else {
      var last := |more| - 1;
      var before := steps + more[..last];
      NeverRuns(o, steps, more[..last]);
      EveryRun(o, before);
      EveryRunAnnounced(o, before);
      HopelessStays(o, Run(o, before), more[last]);
      RunOn(o, before, more[last]);
      assert steps + more == before + [more[last]];
    }
  }

  /** Where nobody ran the engine yet: it can still be run exactly if somebody is left to run it. */
  lemma CanRunIff(o: Options, steps: seq<Step>)
    requires !Ran(Run(o, steps))
    ensures Still(o, Run(o, steps)) <==> exists more :: Executions(Run(o, steps + more)) == 1
  {
    if Still(o, Run(o, steps)) {
      var more := StillRuns(o, steps);
      assert Executions(Run(o, steps + more)) == 1;
    } else {
      forall more ensures Executions(Run(o, steps + more)) == 0 { NeverRuns(o, steps, more); }
    }
  }

  /** A run without an excusing step in which nobody ran the engine yet: somebody still can, unless there is no fallback
      to take or a setup that was told to stop has already lost its namespace. */
  lemma UnexcusedCanRun(o: Options, steps: seq<Step>)
    requires !Excused(o, steps) && !Ran(Run(o, steps))
    ensures Still(o, Run(o, steps)) || NoFallback(o) || Doomed(Run(o, steps))
  {
    EveryRun(o, steps);
    EveryRunAnnounced(o, steps);
    EveryRunAccounts(o, steps);
    if !NoFallback(o) { AccountedCanRun(o, Run(o, steps)); }
  }

  predicate Doomed(s: State) { s.scoped.Watching? && s.inner.Gone? && s.scopedStopping }

  lemma AccountedCanRun(o: Options, s: State)
    requires Invariant(o, s) && Announced(o, s) && InPlace(s) && Accounted(o, s, false)
    requires !Ran(s) && !NoFallback(o)
    ensures Still(o, s) || Doomed(s)
  {
    match s.scoped
    case Absent => assert s.parent.Start? || ByParentNext(s);
    case Ended => assert !s.marked && !o.direct && ByParentNext(s);
    case Watching =>
    case Published => assert s.inner.Ready?;
    case _ =>
  }

  /** What is refused, or fails or dies before its receipt or its entry, is made up for by a fallback. */
  predicate GivesUp(s: State, step: Step) {
    match step
    case Refuses(who) => if who.Parent? then s.parent.Start? else s.scoped.Entered?
    case SetupFails => s.scoped.Watching? && !s.scopedStopping
    case ScopedDies => s.scoped.Entering? && !s.parentStopping
    case _ => false
  }

  lemma GivesUpNext(o: Options, s: State, step: Step)
    requires Invariant(o, s) && GivesUp(s, step)
    ensures var t := Take(o, s, step);
      !Ran(t) && if step == Refuses(Parent) || step.ScopedDies? then ByParentNext(t) else ByScopedNext(t) && !ByParentNext(t)
  {
    match step
    case Refuses(who) => if who.Parent? { } else { }
    case _ =>
  }

  lemma FallsBack(o: Options, steps: seq<Step>, step: Step) returns (more: seq<Step>)
    requires GivesUp(Run(o, steps), step) && !NoFallback(o)
    ensures var t := Run(o, steps + [step] + more);
      Executions(t) == 1 && if step == Refuses(Parent) || step.ScopedDies? then t.byParent else t.byScoped
  {
    EveryRun(o, steps);
    GivesUpNext(o, Run(o, steps), step);
    RunOn(o, steps, step);
    more := StillRuns(o, steps + [step]);
  }

  lemma Then(o: Options, steps: seq<Step>, step: Step) returns (more: seq<Step>)
    ensures more == steps + [step] && Run(o, more) == Take(o, Run(o, steps), step)
    ensures Excused(o, more) <==> Excused(o, steps) || Excuses(o, Run(o, steps), step)
  {
    more := steps + [step];
    RunOn(o, steps, step);
    ExcusedOn(o, steps, step);
  }

  /** The launcher stands inside its scope, with nothing set up yet. */
  lemma ToScope(o: Options) returns (steps: seq<Step>)
    ensures !Excused(o, steps)
    ensures Run(o, steps)
      == if o.direct then Initial(o) else Initial(o).(parent := Waiting, scoped := Entered, marked := true)
  {
    steps := [];
    if !o.direct {
      steps := Then(o, steps, Forks);
      steps := Then(o, steps, Enters);
    }
  }

  lemma ToReceipt(o: Options) returns (steps: seq<Step>)
    ensures var s := Run(o, steps);
      && s.scoped.Published? && s.inner.Ready? && s.published && (o.receipt ==> s.receipt.Domain?) && !Ran(s)
      && if o.direct then s.parent.Absent? else s.parent.Waiting? && s.marked
    ensures !Excused(o, steps)
  {
    steps := ToScope(o);
    steps := Then(o, steps, Spawns);
    steps := Then(o, steps, ProvesReady);
    steps := Then(o, steps, Publishes);
  }

  lemma ToEngine(o: Options) returns (steps: seq<Step>)
    ensures var s := Run(o, steps);
      && s.scoped.Published? && s.inner.Running? && s.byInner
      && if o.direct then s.parent.Absent? else s.parent.Waiting? && s.marked
    ensures !Excused(o, steps)
  {
    steps := ToReceipt(o);
    steps := Then(o, steps, if o.receipt && !o.automatic then ViewerAcks else AcksItself);
    steps := Then(o, steps, InnerExecutes);
  }

  /** A whole launch inside its boundary, from the first process to the last. */
  lemma ProtectedLaunch(o: Options) returns (steps: seq<Step>)
    ensures var s := Run(o, steps); Over(s) && s.byInner && Executions(s) == 1 && !Excused(o, steps)
  {
    steps := ToEngine(o);
    steps := Then(o, steps, InnerDies);
    steps := Then(o, steps, Finishes);
    assert Run(o, steps).scoped.Ended? && Run(o, steps).inner.Gone? && Run(o, steps).byInner;
    if !o.direct { steps := Then(o, steps, Reaps); }
    AtMostOnce(o, steps);
  }

  /** A failure after the receipt ends the launch with the engine run as often as before it. */
  lemma CommittedEnds(o: Options, s: State)
    requires Invariant(o, s) && InPlace(s) && s.scoped.Published?
    ensures var t := Take(o, Take(o, s, CommittedFails), Reaps); Over(t) && Executions(t) == Executions(s)
  {
    assert Take(o, s, CommittedFails) == s.(scoped := Ended, inner := Gone);
    assert s.parent.Absent? || s.parent.Ended? || (s.parent.Waiting? && s.marked);
  }

  /** A fallback that fails ends its launcher. */
  lemma FallbackEnds(o: Options, s: State, who: Who)
    requires At(s, who).Fallback? || At(s, who).AwaitingAck? || At(s, who).Cleared?
    ensures var t := Take(o, s, FallbackFails(who)); At(t, who).Ended? && Executions(t) == Executions(s)
  {
    if who.Parent? { } else { }
  }
}
