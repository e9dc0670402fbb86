/** Retiring leftover processes while any process may exit and any PID may be used again. */
module Retirement {
  import opened Common

  type Pid = nat

  /** One incarnation of a PID: its start identity never changes and is never given to another. */
  datatype Proc = Proc(start: nat, parent: Pid, group: nat, cgroup: string)

  type Table = map<Pid, Proc>

  /** The process table at every moment: processes exit, change parents, groups and cgroups, and new ones take any
      free PID. */
  type Course = nat -> Table

  predicate Is(procs: Table, pid: Pid, start: nat) { pid in procs && procs[pid].start == start }

  /** An incarnation there at two moments was there in between: identities do not come back. */
  ghost predicate NoReturn(run: Course) {
    forall i: nat, j: nat, k: nat | i <= j <= k :: Continues(run, i, j, k)
  }

  ghost predicate Continues(run: Course, i: nat, j: nat, k: nat) {
    forall pid: Pid, start: nat :: Is(run(i), pid, start) && Is(run(k), pid, start) ==> Is(run(j), pid, start)
  }

  /** A row of the process table, and the moment it was there. */
  datatype Link = Link(pid: Pid, stat: Proc, at: nat)

  ghost predicate WasRead(run: Course, l: Link) { l.pid in run(l.at) && run(l.at)[l.pid] == l.stat }

  /** A signal that reached a process at a moment, with what had been read about it. */
  datatype Sent = Sent(pid: Pid, start: nat, signum: nat, at: nat, stat: Link, place: Link)

  /** Between two moments, this incarnation is there throughout. */
  ghost predicate Stays(run: Course, from: nat, until: nat, pid: Pid, start: nat) {
    forall i :: from <= i < until ==> Is(run(i), pid, start)
  }

  /** And sits in one cgroup directory. */
  ghost predicate Sits(run: Course, from: nat, until: nat, pid: Pid, start: nat, dir: string) {
    forall i :: from <= i < until ==> Is(run(i), pid, start) && run(i)[pid].cgroup == dir
  }

  ghost predicate WasInside(run: Course, from: nat, until: nat, pid: Pid, group: string) {
    exists i :: from <= i < until && pid in run(i) && Within(run(i)[pid].cgroup, group)
  }

  /** `group == parent or group.startswith(parent.rstrip("/") + "/")`. */
  function Stripped(path: string): string {
    if path != "" && path[|path| - 1] == '/' then Stripped(path[..|path| - 1]) else path
  }

  predicate Within(cgroup: string, group: string) {
    cgroup == group || Stripped(group) + "/" <= cgroup
  }

  /** A path up to its trailing slashes. */
  predicate Bare(path: string, k: int) {
    0 <= k <= |path| && (k == 0 || path[k - 1] != '/') && forall i :: k <= i < |path| ==> path[i] == '/'
  }

  lemma {:induction false} StrippedBare(path: string)
    ensures |Stripped(path)| <= |path| && Stripped(path) == path[..|Stripped(path)|]
    ensures Bare(path, |Stripped(path)|)
  {
    if path != "" && path[|path| - 1] == '/' {
      var less := path[..|path| - 1];
      StrippedBare(less);
      assert path[..|Stripped(less)|] == less[..|Stripped(less)|];
    }
  }

  /** Inside a group is the group itself and every path that goes on, after a slash, from it without its own. */
  lemma WithinIff(cgroup: string, group: string)
    ensures Within(cgroup, group) <==> cgroup == group || exists k :: Bare(group, k) && group[..k] + "/" <= cgroup
  {
    StrippedBare(group);
    assert forall k :: Bare(group, k) ==> k == |Stripped(group)| by {
      forall k | Bare(group, k) ensures k == |Stripped(group)| { }
    }
  }

  /** Every access reads the table of its own moment. */
  class Kernel {
    const run: Course
    var now: nat
    ghost var sent: seq<Sent>

    constructor (run: Course)
      ensures this.run == run && now == 0 && sent == []
    {
      this.run, now, sent := run, 0, [];
    }

    /** Reads `/proc/<pid>/stat`, or whatever else shows that the process is there. */
    method ReadStat(pid: Pid) returns (stat: Option<Proc>)
      modifies `now
      ensures now == old(now) + 1
      ensures stat == if pid in run(old(now)) then Some(run(old(now))[pid]) else None
    {
      stat := if pid in run(now) then Some(run(now)[pid]) else None;
      now := now + 1;
    }

    /** Walks the directories of a cgroup subtree, reading each one's members at a moment of its own. */
    method Members(dirs: seq<string>) returns (pids: set<Pid>)
      modifies `now
      ensures old(now) <= now
      ensures forall pid :: pid in pids ==>
        exists i :: old(now) <= i < now && pid in run(i) && run(i)[pid].cgroup in dirs
      ensures forall pid: Pid, start: nat, dir | dir in dirs ::
        Sits(run, old(now), now, pid, start, dir) ==> pid in pids
    {
      pids := {};
      for n := 0 to |dirs|
        invariant now == old(now) + n
        invariant forall pid :: pid in pids ==>
          exists i :: old(now) <= i < now && pid in run(i) && run(i)[pid].cgroup in dirs
        invariant forall pid: Pid, start: nat, m | 0 <= m < n ::
          Sits(run, old(now), now, pid, start, dirs[m]) ==> pid in pids
      {
        ghost var was := now;
        var here := set pid | pid in run(now) && run(now)[pid].cgroup == dirs[n];
        now := now + 1;
        forall pid: Pid, start: nat, m | 0 <= m <= n && Sits(run, old(now), now, pid, start, dirs[m])
          ensures pid in pids + here
        {
          if m < n {
            assert Sits(run, old(now), was, pid, start, dirs[m]);
          } else {
            assert Is(run(was), pid, start);
          }
        }
        pids := pids + here;
      }
    }

    /** Whether a cgroup's directory is there; without it no process is inside. */
    method HasDirectory(group: string) returns (there: bool)
      modifies `now
      ensures now == old(now) + 1
      ensures !there ==> forall pid :: pid in run(old(now)) ==> !Within(run(old(now))[pid].cgroup, group)
    {
      there := *;
      if exists pid :: pid in run(now) && Within(run(now)[pid].cgroup, group) { there := true; }
      now := now + 1;
    }

    /** Sends through a descriptor, which reaches the incarnation it was opened on or nobody. */
    method Send(pid: Pid, bound: nat, signum: nat, ghost stat: Link, ghost place: Link) returns (ok: bool)
      modifies `now, `sent
      ensures now == old(now) + 1 && (ok <==> Is(run(old(now)), pid, bound))
      ensures sent == old(sent) + if ok then [Sent(pid, bound, signum, old(now), stat, place)] else []
    {
      ok := Is(run(now), pid, bound);
      if ok { sent := sent + [Sent(pid, bound, signum, now, stat, place)]; }
      now := now + 1;
    }
  }

  /** What the switch knew when it submitted the stop. */
  datatype Knowledge = Knowledge(agents: map<Pid, nat>, roots: map<Pid, nat>, viewerGroup: Option<nat>)

  predicate Held(held: map<Pid, nat>, pid: Pid, start: nat) { pid in held && held[pid] == start }

  predicate HeldLink(held: map<Pid, nat>, l: Link) { Held(held, l.pid, l.stat.start) }

  /** A root that is no agent. */
  predicate IsRoot(k: Knowledge, pid: Pid, start: nat) { Held(k.roots, pid, start) && !Held(k.agents, pid, start) }

  /** A recorded root, a launcher ancestor, or a member of the Viewer's process group. */
  ghost predicate Admitted(k: Knowledge, pid: Pid, stat: Proc) {
    Held(k.roots, pid, stat.start) || k.viewerGroup == Some(stat.group)
  }

  /** Rows of the table, one moment after another, each that of the parent the previous one named. */
  ghost predicate Walked(run: Course, from: nat, until: nat, chain: seq<Link>) {
    && (forall i :: 0 <= i < |chain| ==> from <= chain[i].at < until && WasRead(run, chain[i]))
    && (forall i :: 0 < i < |chain| ==> Follows(chain, i))
  }

  ghost predicate Follows(chain: seq<Link>, i: nat)
    requires 0 < i < |chain|
  {
    chain[i].pid == chain[i - 1].stat.parent && chain[i - 1].at < chain[i].at
  }

  /** Where a walk from `pid` goes on. */
  function NextPid(chain: seq<Link>, pid: Pid): Pid {
    if chain == [] then pid else chain[|chain| - 1].stat.parent
  }

  const DEPTH := 64

  /** A walk from `pid` that has nowhere left to go. */
  ghost predicate Exhausted(chain: seq<Link>, pid: Pid) {
    NextPid(chain, pid) <= 1 || NextPid(chain, pid) in Pids(chain) || |chain| == DEPTH
  }

  function Pids(chain: seq<Link>): set<Pid> { set i | 0 <= i < |chain| :: chain[i].pid }

  /** A walk from `pid` that stands at `current` and has not met a PID twice. */
  ghost predicate Walking(run: Course, from: nat, until: nat, chain: seq<Link>, pid: Pid, current: Pid,
                          seen: set<Pid>) {
    && Walked(run, from, until, chain) && |chain| == |seen| <= DEPTH && current == NextPid(chain, pid)
    && (chain != [] ==> chain[0].pid == pid) && seen == Pids(chain) && (forall p :: p in seen ==> p > 1)
  }

  /** One more row of a walk. */
  lemma WalkingOn(run: Course, from: nat, until: nat, chain: seq<Link>, pid: Pid, seen: set<Pid>, l: Link, now: nat)
    requires Walking(run, from, until, chain, pid, l.pid, seen) && l.pid !in seen && l.pid > 1 && |seen| < DEPTH
    requires WasRead(run, l) && from <= l.at < now && (chain != [] ==> until <= l.at)
    ensures Walking(run, from, now, chain + [l], pid, l.stat.parent, seen + {l.pid})
  {
    WalkedOn(run, from, until, chain, pid, l, now);
    PidsOn(chain, l);
  }

  lemma WalkedOn(run: Course, from: nat, until: nat, chain: seq<Link>, pid: Pid, l: Link, now: nat)
    requires Walked(run, from, until, chain) && l.pid == NextPid(chain, pid)
    requires WasRead(run, l) && from <= l.at < now && (chain != [] ==> until <= l.at)
    ensures Walked(run, from, now, chain + [l])
  {
    var all := chain + [l];
    forall i | 0 <= i < |all| ensures from <= all[i].at < now && WasRead(run, all[i]) {}
    forall i | 0 < i < |all| ensures Follows(all, i) {
      assert i < |chain| ==> Follows(chain, i);
    }
  }

  lemma PidsOn(chain: seq<Link>, l: Link)
    ensures Pids(chain + [l]) == Pids(chain) + {l.pid}
  {
    var all := chain + [l];
    assert all[|chain|] == l && forall i :: 0 <= i < |chain| ==> all[i] == chain[i];
  }

  lemma StartMet(chain: seq<Link>, pid: Pid)
    requires chain != [] ==> chain[0].pid == pid
    ensures chain == [] || pid in Pids(chain)
  {
    if chain != [] { assert chain[0].pid in Pids(chain); }
  }

  /** A walk that cannot go on is exhausted. */
  lemma WalkEnds(run: Course, from: nat, until: nat, chain: seq<Link>, pid: Pid, current: Pid, seen: set<Pid>)
    requires Walking(run, from, until, chain, pid, current, seen)
    requires current <= 1 || current in seen || |seen| >= DEPTH
    ensures Exhausted(chain, pid)
  {
  }

  /** Neither an agent nor a captured member on the chain. */
  ghost predicate Clear(chain: seq<Link>, k: Knowledge, captured: map<Pid, nat>) {
    forall i :: 0 <= i < |chain| ==> !HeldLink(k.agents, chain[i]) && !HeldLink(captured, chain[i])
  }

  /** An admitted process whose parents, as they were, met a captured member last and no agent on the way. */
  ghost predicate Evidence(run: Course, from: nat, until: nat, chain: seq<Link>, pid: Pid, start: nat, k: Knowledge,
                           captured: map<Pid, nat>) {
    && chain != [] && Walked(run, from, until, chain)
    && chain[0].pid == pid && chain[0].stat.start == start && Admitted(k, pid, chain[0].stat)
    && (forall i :: 0 <= i < |chain| ==> chain[i].pid > 1) && Clear(chain[..|chain| - 1], k, captured)
    && !HeldLink(k.agents, chain[|chain| - 1]) && HeldLink(captured, chain[|chain| - 1])
  }

  /** The parents met an agent first, or ended without meeting anyone. */
  ghost predicate Unowned(chain: seq<Link>, pid: Pid, k: Knowledge, captured: map<Pid, nat>) {
    || (chain != [] && Clear(chain[..|chain| - 1], k, captured) && HeldLink(k.agents, chain[|chain| - 1]))
    || (Clear(chain, k, captured) && Exhausted(chain, pid))
  }

  datatype Answer = Proven | Unproven | Raised

  /** A process, its parent, and so on, each with its start identity. */
  type Trail = seq<(Pid, nat)>

  ghost predicate SteadyAt(t: Table, trail: Trail) {
    && (forall j :: 0 <= j < |trail| ==> Is(t, trail[j].0, trail[j].1))
    && (forall j :: 0 <= j < |trail| - 1 ==> ParentAt(t, trail, j))
  }

  ghost predicate ParentAt(t: Table, trail: Trail, j: nat)
    requires j < |trail| - 1
  {
    trail[j].0 in t && t[trail[j].0].parent == trail[j + 1].0
  }

  /** A trail that can be walked, has no agent on it and ends at a captured member. */
  ghost predicate Ours(trail: Trail, k: Knowledge, captured: map<Pid, nat>) {
    && Walkable(trail) && Held(captured, trail[|trail| - 1].0, trail[|trail| - 1].1)
    && (forall j :: 0 <= j < |trail| ==> !Held(k.agents, trail[j].0, trail[j].1))
  }

  /** Throughout, the process is admitted and its parents lead to a captured member. */
  ghost predicate Convinces(run: Course, from: nat, until: nat, trail: Trail, pid: Pid, start: nat, k: Knowledge,
                            captured: map<Pid, nat>) {
    && Ours(trail, k, captured) && trail[0] == (pid, start)
    && Steady(run, from, until, trail)
    && (forall i :: from <= i < until ==> pid in run(i) && Admitted(k, pid, run(i)[pid]))
  }

  lemma ConvincesStays(run: Course, from: nat, until: nat, trail: Trail, pid: Pid, start: nat, k: Knowledge,
                       captured: map<Pid, nat>)
    requires Convinces(run, from, until, trail, pid, start, k, captured)
    ensures Stays(run, from, until, pid, start)
  {
    forall i | from <= i < until ensures Is(run(i), pid, start) { assert SteadyAt(run(i), trail); }
  }

  /** The trail is as it is throughout. */
  ghost predicate Steady(run: Course, from: nat, until: nat, trail: Trail) {
    forall i :: from <= i < until ==> SteadyAt(run(i), trail)
  }

  /** A trail that can be walked to its end. */
  ghost predicate Walkable(trail: Trail) {
    && trail != [] && |trail| <= DEPTH && (forall j :: 0 <= j < |trail| ==> trail[j].0 > 1)
    && forall i, j :: 0 <= i < j < |trail| ==> trail[i].0 != trail[j].0
  }

  /** A chain read while its trail was steady follows the trail. */
  lemma {:induction false} FollowsTrail(run: Course, from: nat, until: nat, trail: Trail, chain: seq<Link>, n: nat)
    requires Steady(run, from, until, trail) && Walked(run, from, until, chain)
    requires n < |chain| && n < |trail| && chain[0].pid == trail[0].0
    ensures (chain[n].pid, chain[n].stat.start) == trail[n]
    ensures n + 1 < |trail| ==> chain[n].stat.parent == trail[n + 1].0
  {
    if n > 0 {
      FollowsTrail(run, from, until, trail, chain, n - 1);
      assert Follows(chain, n);
    }
    assert WasRead(run, chain[n]) && SteadyAt(run(chain[n].at), trail);
    assert n + 1 < |trail| ==> ParentAt(run(chain[n].at), trail, n);
  }

  /** A chain shorter than its steady trail goes on along it, to a process that is there. */
  lemma GoesOn(run: Course, from: nat, until: nat, trail: Trail, pid: Pid, chain: seq<Link>)
    requires Steady(run, from, until, trail) && Walkable(trail) && from < until && Walked(run, from, until, chain)
    requires trail[0].0 == pid && (chain != [] ==> chain[0].pid == pid) && |chain| < |trail|
    ensures NextPid(chain, pid) == trail[|chain|].0 && !Exhausted(chain, pid) && NextPid(chain, pid) in run(until - 1)
  {
    assert SteadyAt(run(until - 1), trail) && Is(run(until - 1), trail[|chain|].0, trail[|chain|].1);
    forall n | 0 <= n < |chain| ensures (chain[n].pid, chain[n].stat.start) == trail[n] {
      FollowsTrail(run, from, until, trail, chain, n);
    }
    if chain != [] { FollowsTrail(run, from, until, trail, chain, |chain| - 1); }
    forall i | 0 <= i < |chain| ensures chain[i].pid != trail[|chain|].0 { }
  }

  /** What convinces throughout the reads of a proof leaves it no way to end but proven. */
  lemma ConvincedProven(run: Course, at: nat, until: nat, trail: Trail, pid: Pid, start: nat, stat: Proc, k: Knowledge,
                        captured: map<Pid, nat>, chain: seq<Link>)
    requires Convinces(run, at, until, trail, pid, start, k, captured)
    requires WasRead(run, Link(pid, stat, at)) && at < until
    requires Walked(run, at, until, chain) && (chain != [] ==> chain[0] == Link(pid, stat, at))
    ensures stat.start == start && Admitted(k, pid, stat) && !Unowned(chain, pid, k, captured)
    ensures Clear(chain, k, captured) ==> NextPid(chain, pid) in run(until - 1)
  {
    assert SteadyAt(run(at), trail);
    forall n | 0 <= n < |chain| && n < |trail| ensures (chain[n].pid, chain[n].stat.start) == trail[n] {
      FollowsTrail(run, at, until, trail, chain, n);
    }
    var last := |trail| - 1;
    if |chain| > last {
      assert HeldLink(captured, chain[last]);
      assert |chain| - 1 > last ==> chain[..|chain| - 1][last] == chain[last];
    } else {
      GoesOn(run, at, until, trail, pid, chain);
    }
  }

  /** Whether a process, or a parent its chain still reaches, is a captured member. `at` is when `stat` was read. An
      admitted process whose parents lead to a captured member throughout is always proven. */
  method Proof(kernel: Kernel, pid: Pid, stat: Proc, k: Knowledge, captured: map<Pid, nat>, ghost at: nat)
    returns (a: Answer, ghost chain: seq<Link>)
    requires WasRead(kernel.run, Link(pid, stat, at)) && at < kernel.now
    modifies kernel`now
    ensures old(kernel.now) <= kernel.now
    ensures Walked(kernel.run, at, kernel.now, chain) && (chain != [] ==> chain[0] == Link(pid, stat, at))
    ensures ProofTold(kernel.run, at, kernel.now, a, chain, pid, stat, k, captured)
    ensures forall trail, start: nat | Convinces(kernel.run, at, kernel.now, trail, pid, start, k, captured) ::
      a.Proven? && stat.start == start
  {
    a, chain := WalkProof(kernel, pid, stat, k, captured, at);
    forall trail, start: nat | Convinces(kernel.run, at, kernel.now, trail, pid, start, k, captured)
      ensures a.Proven? && stat.start == start
    {
      ConvincedProven(kernel.run, at, kernel.now, trail, pid, start, stat, k, captured, chain);
    }
  }

  /** What a proof came to, by the rows that were read for it. */
  ghost predicate ProofTold(run: Course, at: nat, until: nat, a: Answer, chain: seq<Link>, pid: Pid, stat: Proc,
                            k: Knowledge, captured: map<Pid, nat>) {
    match a
    case Proven => Evidence(run, at, until, chain, pid, stat.start, k, captured)
    case Unproven => !Admitted(k, pid, stat) || Unowned(chain, pid, k, captured)
    case Raised => Clear(chain, k, captured) && until > 0 && NextPid(chain, pid) !in run(until - 1)
  }

  method WalkProof(kernel: Kernel, pid: Pid, stat: Proc, k: Knowledge, captured: map<Pid, nat>, ghost at: nat)
    returns (a: Answer, ghost chain: seq<Link>)
    requires WasRead(kernel.run, Link(pid, stat, at)) && at < kernel.now
    modifies kernel`now
    ensures old(kernel.now) <= kernel.now
    ensures Walked(kernel.run, at, kernel.now, chain) && (chain != [] ==> chain[0] == Link(pid, stat, at))
    ensures ProofTold(kernel.run, at, kernel.now, a, chain, pid, stat, k, captured)
  {
    chain := [];
    if !Held(k.roots, pid, stat.start) && k.viewerGroup != Some(stat.group) { return Unproven, []; }
    var current, seen: set<Pid> := pid, {};
    while current > 1 && current !in seen && |seen| < DEPTH
      invariant old(kernel.now) <= kernel.now
      invariant Walking(kernel.run, at, kernel.now, chain, pid, current, seen) && Clear(chain, k, captured)
      invariant chain != [] ==> chain[0] == Link(pid, stat, at)
      decreases DEPTH - |seen|
    {
      var row, link := ProofTurn(kernel, current, pid, stat, k, captured, at, chain, seen);
      if row.None? { return Raised, chain; }
      chain := chain + [link];
      var met := Weigh(current, row.value.start, k, captured);
      ToldBy(kernel.run, at, kernel.now, chain, link, met, pid, stat, k, captured);
      if met.Some? { return met.value, chain; }
      seen := seen + {current};
      current := row.value.parent;
    }
    WalkEnds(kernel.run, at, kernel.now, chain, pid, current, seen);
    a := Unproven;
  }

  /** The next row of a chain: the one already read for the process itself, a fresh one for a parent. */
  method ProofTurn(kernel: Kernel, current: Pid, pid: Pid, stat: Proc, k: Knowledge, captured: map<Pid, nat>,
                   ghost at: nat, ghost chain: seq<Link>, ghost seen: set<Pid>)
    returns (row: Option<Proc>, ghost link: Link)
    requires WasRead(kernel.run, Link(pid, stat, at)) && at < kernel.now && Admitted(k, pid, stat)
    requires Walking(kernel.run, at, kernel.now, chain, pid, current, seen) && Clear(chain, k, captured)
    requires current !in seen && current > 1 && |seen| < DEPTH && (chain != [] ==> chain[0] == Link(pid, stat, at))
    modifies kernel`now
    ensures old(kernel.now) <= kernel.now
    ensures row.None? ==> chain != [] && current !in kernel.run(kernel.now - 1)
    ensures row.Some? ==> link.pid == current && link.stat == row.value
    ensures row.Some? ==> Walking(kernel.run, at, kernel.now, chain + [link], pid, row.value.parent, seen + {current})
    ensures row.Some? ==> (chain + [link])[0] == Link(pid, stat, at)
    ensures row.Some? ==> Weighed(kernel.run, at, kernel.now, chain, link, pid, stat, k, captured)
  {
    ghost var before := kernel.now;
    link := Link(pid, stat, at);
    row := Some(stat);
    if current == pid {
      StartMet(chain, pid);
    } else {
      row := kernel.ReadStat(current);
      if row.None? { return; }
      link := Link(current, row.value, before);
    }
    WalkingOn(kernel.run, at, before, chain, pid, seen, link, kernel.now);
    ProofStep(kernel.run, at, kernel.now, chain, link, pid, stat, k, captured);
  }

  /** Whether an agent or a captured member is met. */
  function Weigh(pid: Pid, start: nat, k: Knowledge, captured: map<Pid, nat>): Option<Answer> {
    if Held(k.agents, pid, start) then Some(Unproven) else if Held(captured, pid, start) then Some(Proven) else None
  }

  lemma ToldBy(run: Course, at: nat, until: nat, chain: seq<Link>, l: Link, met: Option<Answer>, pid: Pid, stat: Proc,
               k: Knowledge, captured: map<Pid, nat>)
    requires chain != [] && l == chain[|chain| - 1] && met == Weigh(l.pid, l.stat.start, k, captured)
    requires Weighed(run, at, until, chain[..|chain| - 1], l, pid, stat, k, captured)
    ensures if met.Some? then ProofTold(run, at, until, met.value, chain, pid, stat, k, captured)
            else Clear(chain, k, captured)
  {
    assert chain == chain[..|chain| - 1] + [l];
  }

  /** What one more row says. */
  ghost predicate Weighed(run: Course, from: nat, until: nat, was: seq<Link>, l: Link, pid: Pid, stat: Proc,
                          k: Knowledge, captured: map<Pid, nat>) {
    var chain := was + [l];
    if HeldLink(k.agents, l) then Unowned(chain, pid, k, captured)
    else if HeldLink(captured, l) then Evidence(run, from, until, chain, pid, stat.start, k, captured)
    else Clear(chain, k, captured)
  }

  lemma ProofStep(run: Course, from: nat, until: nat, was: seq<Link>, l: Link, pid: Pid, stat: Proc, k: Knowledge,
                  captured: map<Pid, nat>)
    requires Walked(run, from, until, was + [l]) && Clear(was, k, captured) && Admitted(k, pid, stat)
    requires (was + [l])[0].pid == pid && (was + [l])[0].stat == stat
    requires forall p :: p in Pids(was + [l]) ==> p > 1
    ensures Weighed(run, from, until, was, l, pid, stat, k, captured)
  {
    var chain := was + [l];
    assert chain[..|was|] == was;
    assert forall i :: 0 <= i < |chain| ==> chain[i].pid in Pids(chain);
  }

  datatype Survivor = Survivor(pid: Pid, start: Option<nat>, proven: bool)

  ghost predicate ProvenSurvivor(run: Course, from: nat, until: nat, s: Survivor, k: Knowledge,
                                 captured: map<Pid, nat>) {
    && s.start.Some?
    && exists chain, i :: ConfirmedAt(run, from, until, chain, i, s.pid, s.start.value, k, captured)
  }

  /** The evidence, and after it was read the process was still the same. */
  ghost predicate ConfirmedAt(run: Course, from: nat, until: nat, chain: seq<Link>, i: nat, pid: Pid, start: nat,
                              k: Knowledge, captured: map<Pid, nat>) {
    && Evidence(run, from, until, chain, pid, start, k, captured)
    && chain[|chain| - 1].at < i < until && Is(run(i), pid, start)
  }

  lemma ProvenWider(run: Course, from: nat, until: nat, low: nat, high: nat, s: Survivor, k: Knowledge,
                    captured: map<Pid, nat>)
    requires ProvenSurvivor(run, from, until, s, k, captured) && low <= from && until <= high
    ensures ProvenSurvivor(run, low, high, s, k, captured)
  {
    var chain, i :| ConfirmedAt(run, from, until, chain, i, s.pid, s.start.value, k, captured);
    assert ConfirmedAt(run, low, high, chain, i, s.pid, s.start.value, k, captured);
  }

  /** Whether /proc no longer shows one process there from the first read to the last. */
  method Gone(kernel: Kernel, pid: Pid) returns (gone: bool)
    modifies kernel`now
    ensures old(kernel.now) < kernel.now
    ensures gone ==> forall start: nat :: !Stays(kernel.run, old(kernel.now), kernel.now, pid, start)
    ensures kernel.now == old(kernel.now) + 4
    ensures gone <==>
      ((exists i :: old(kernel.now) <= i < kernel.now && pid !in kernel.run(i))
       || kernel.run(old(kernel.now))[pid].start != kernel.run(kernel.now - 1)[pid].start)
  {
    ghost var n := kernel.now;
    var first := kernel.ReadStat(pid);
    var args := kernel.ReadStat(pid);
    var cwd := kernel.ReadStat(pid);
    var last := kernel.ReadStat(pid);
    gone := first.None? || args.None? || cwd.None? || last.None? || first.value.start != last.value.start;
    forall start: nat | Stays(kernel.run, n, kernel.now, pid, start) ensures !gone {
      assert Is(kernel.run(n), pid, start) && Is(kernel.run(n + 1), pid, start);
      assert Is(kernel.run(n + 2), pid, start) && Is(kernel.run(n + 3), pid, start);
    }
  }

  /** Reads a process and its proof; none when a read on the way fails. */
  method Examine(kernel: Kernel, pid: Pid, k: Knowledge, captured: map<Pid, nat>)
    returns (stat: Option<Proc>, r: Option<Survivor>)
    modifies kernel`now
    ensures old(kernel.now) < kernel.now
    ensures stat == if pid in kernel.run(old(kernel.now)) then Some(kernel.run(old(kernel.now))[pid]) else None
    ensures r.Some? ==> stat.Some? && r.value.pid == pid && r.value.start == Some(stat.value.start)
    ensures r.Some? ==> pid in kernel.run(old(kernel.now) + 1) && pid in kernel.run(kernel.now - 1)
    ensures r.Some? && r.value.proven ==>
      ProvenSurvivor(kernel.run, old(kernel.now), kernel.now, r.value, k, captured)
    ensures forall trail, start: nat |
      Convinces(kernel.run, old(kernel.now), kernel.now, trail, pid, start, k, captured) :: r.Some? && r.value.proven
  {
    ghost var n := kernel.now;
    r := None;
    stat := kernel.ReadStat(pid);
    if stat.Some? {
      var args := kernel.ReadStat(pid);
      if args.Some? {
        r := ExamineOn(kernel, pid, stat.value, k, captured, n);
        return;
      }
    }
    ghost var missing := kernel.now - 1;
    forall trail, start: nat ensures !Convinces(kernel.run, n, kernel.now, trail, pid, start, k, captured) {
      assert n <= missing < kernel.now && pid !in kernel.run(missing);
    }
  }

  /** The proof of a process, and whether it is still the same. */
  method ExamineOn(kernel: Kernel, pid: Pid, stat: Proc, k: Knowledge, captured: map<Pid, nat>, ghost n: nat)
    returns (r: Option<Survivor>)
    requires WasRead(kernel.run, Link(pid, stat, n)) && n < kernel.now
    modifies kernel`now
    ensures old(kernel.now) <= kernel.now
    ensures r.Some? ==> r.value.pid == pid && r.value.start == Some(stat.start) && pid in kernel.run(kernel.now - 1)
    ensures r.Some? && r.value.proven ==> ProvenSurvivor(kernel.run, n, kernel.now, r.value, k, captured)
    ensures forall trail, start: nat | Convinces(kernel.run, n, kernel.now, trail, pid, start, k, captured) ::
      r.Some? && r.value.proven
  {
    r := None;
    var a, chain := Proof(kernel, pid, stat, k, captured, n);
    ghost var proved := kernel.now;
    if !a.Raised? {
      var again := kernel.ReadStat(pid);
      if again.Some? {
        r := Some(Survivor(pid, Some(stat.start), a.Proven? && again.value.start == stat.start));
        if r.value.proven {
          assert ConfirmedAt(kernel.run, n, kernel.now, chain, proved, pid, stat.start, k, captured);
        }
      }
    }
    forall trail, start: nat | Convinces(kernel.run, n, kernel.now, trail, pid, start, k, captured)
      ensures r.Some? && r.value.proven
    {
      assert Convinces(kernel.run, n, proved, trail, pid, start, k, captured);
      ConvincesStays(kernel.run, n, kernel.now, trail, pid, start, k, captured);
      assert Is(kernel.run(proved), pid, start);
    }
  }

  /** What is found out about one process of the old cgroup; none when it has exited. */
  method Survey(kernel: Kernel, pid: Pid, k: Knowledge, captured: map<Pid, nat>) returns (r: Option<Survivor>)
    modifies kernel`now
    ensures old(kernel.now) < kernel.now
    ensures r.None? ==> forall start: nat :: !Stays(kernel.run, old(kernel.now), kernel.now, pid, start)
    ensures r.Some? ==> r.value.pid == pid && pid in kernel.run(kernel.now - 1)
    ensures r.Some? && r.value.proven ==>
      ProvenSurvivor(kernel.run, old(kernel.now), kernel.now, r.value, k, captured)
    ensures r.Some? ==> forall start: nat ::
      Stays(kernel.run, old(kernel.now), kernel.now, pid, start) ==> r.value.start == Some(start)
    ensures forall trail, start: nat |
      Convinces(kernel.run, old(kernel.now), kernel.now, trail, pid, start, k, captured) :: r.Some? && r.value.proven
  {
    ghost var n := kernel.now;
    var stat;
    stat, r := Examine(kernel, pid, k, captured);
    ghost var before := kernel.now;
    if r.None? {
      var gone := Gone(kernel, pid);
      r := if gone then None else Some(Survivor(pid, if stat.Some? then Some(stat.value.start) else None, false));
    }
    forall start: nat | Stays(kernel.run, n, kernel.now, pid, start)
      ensures r.Some? && r.value.start == Some(start)
    {
      assert Is(kernel.run(n), pid, start) && Stays(kernel.run, before, kernel.now, pid, start);
    }
    forall trail, start: nat | Convinces(kernel.run, n, kernel.now, trail, pid, start, k, captured)
      ensures r.Some? && r.value.proven
    {
      assert Convinces(kernel.run, n, before, trail, pid, start, k, captured);
    }
  }

  predicate Reported(found: seq<Survivor>, pid: Pid, start: nat) {
    exists i :: 0 <= i < |found| && found[i].pid == pid && found[i].start == Some(start)
  }

  /** What a list of survivors says: each was in the old cgroup, and proven only with evidence read from there on. */
  ghost predicate Surveyed(run: Course, from: nat, until: nat, found: seq<Survivor>, group: string, k: Knowledge,
                           captured: map<Pid, nat>) {
    forall s :: s in found ==>
      WasInside(run, from, until, s.pid, group) && (s.proven ==> ProvenSurvivor(run, from, until, s, k, captured))
  }

  lemma SurveyedLater(run: Course, from: nat, until: nat, high: nat, found: seq<Survivor>, group: string, k: Knowledge,
                      captured: map<Pid, nat>)
    requires Surveyed(run, from, until, found, group, k, captured) && until <= high
    ensures Surveyed(run, from, high, found, group, k, captured)
  {
    forall s | s in found
      ensures WasInside(run, from, high, s.pid, group) && (s.proven ==> ProvenSurvivor(run, from, high, s, k, captured))
    {
      if s.proven { ProvenWider(run, from, until, from, high, s, k, captured); }
    }
  }

  /** A directory of the old cgroup that the walk, if it was not refused, listed. */
  predicate ListedBy(walk: Option<seq<string>>, dir: string, group: string) {
    Within(dir, group) && (walk.Some? ==> dir in walk.value)
  }

  /** What a list of survivors must hold: everyone who sat in a listed directory throughout, as proven if parents led
      to a captured member throughout. */
  ghost predicate Thorough(run: Course, from: nat, until: nat, found: seq<Survivor>, walk: Option<seq<string>>,
                           group: string, k: Knowledge, captured: map<Pid, nat>) {
    && (forall pid: Pid, start: nat, dir | ListedBy(walk, dir, group) ::
          Sits(run, from, until, pid, start, dir) ==> Reported(found, pid, start))
    && (forall pid: Pid, start: nat, dir, trail |
          ListedBy(walk, dir, group) && Convinces(run, from, until, trail, pid, start, k, captured) ::
          Sits(run, from, until, pid, start, dir) ==> Survivor(pid, Some(start), true) in found)
  }

  predicate DistinctPids(found: seq<Survivor>) {
    forall i, j :: 0 <= i < j < |found| ==> found[i].pid != found[j].pid
  }

  /** Each process still in the old cgroup. The walk lists the directories below it, or fails; a failed walk
      is refused while the directory is there. Nobody who sat in a listed directory throughout is missed, and whose
      parents led to a captured member throughout is proven. */
  method Survivors(kernel: Kernel, group: string, walk: Option<seq<string>>, k: Knowledge, captured: map<Pid, nat>)
    returns (found: Option<seq<Survivor>>)
    requires walk.Some? ==> forall dir :: dir in walk.value ==> Within(dir, group)
    modifies kernel`now
    ensures old(kernel.now) <= kernel.now && (found.None? ==> walk.None?)
    ensures found.Some? ==> Surveyed(kernel.run, old(kernel.now), kernel.now, found.value, group, k, captured)
    ensures found.Some? ==> DistinctPids(found.value)
    ensures found.Some? ==> Thorough(kernel.run, old(kernel.now), kernel.now, found.value, walk, group, k, captured)
  {
    ghost var n := kernel.now;
    if walk.None? {
      var there := kernel.HasDirectory(group);
      if there { return None; }
      ghost var later := kernel.now;
      forall pid: Pid, start: nat, dir | Within(dir, group) ensures !Sits(kernel.run, n, later, pid, start, dir) {
        assert Is(kernel.run(n), pid, start) ==> !Within(kernel.run(n)[pid].cgroup, group);
      }
      return Some([]);
    }
    var pids := kernel.Members(walk.value);
    ghost var read := kernel.now;
    var list := SurveyAll(kernel, pids, group, k, captured, n);
    forall pid: Pid, start: nat, dir | dir in walk.value && Sits(kernel.run, n, kernel.now, pid, start, dir)
      ensures Reported(list, pid, start)
    {
      assert Sits(kernel.run, n, read, pid, start, dir) && Stays(kernel.run, n, kernel.now, pid, start);
    }
    forall pid: Pid, start: nat, dir, trail | dir in walk.value && Sits(kernel.run, n, kernel.now, pid, start, dir)
      && Convinces(kernel.run, n, kernel.now, trail, pid, start, k, captured)
      ensures Survivor(pid, Some(start), true) in list
    {
      assert Sits(kernel.run, n, read, pid, start, dir);
    }
    found := Some(list);
  }

  method SurveyAll(kernel: Kernel, pids: set<Pid>, group: string, k: Knowledge, captured: map<Pid, nat>, ghost n: nat)
    returns (found: seq<Survivor>)
    requires n <= kernel.now && forall pid :: pid in pids ==> WasInside(kernel.run, n, kernel.now, pid, group)
    modifies kernel`now
    ensures old(kernel.now) <= kernel.now && Surveyed(kernel.run, n, kernel.now, found, group, k, captured)
    ensures AllReported(kernel.run, n, kernel.now, pids, found)
    ensures AllConvinced(kernel.run, n, kernel.now, pids, found, k, captured) && DistinctPids(found)
  {
    found := [];
    var rest := pids;
    while rest != {}
      invariant old(kernel.now) <= kernel.now && rest <= pids
      invariant Surveyed(kernel.run, n, kernel.now, found, group, k, captured)
      invariant AllReported(kernel.run, n, kernel.now, pids - rest, found)
      invariant AllConvinced(kernel.run, n, kernel.now, pids - rest, found, k, captured)
      invariant DistinctPids(found) && forall s :: s in found ==> s.pid in pids - rest
    {
      var pid :| pid in rest;
      ghost var before, was := kernel.now, found;
      var s := Survey(kernel, pid, k, captured);
      SurveyedLater(kernel.run, n, before, kernel.now, found, group, k, captured);
      if s.Some? {
        if s.value.proven { ProvenWider(kernel.run, before, kernel.now, n, kernel.now, s.value, k, captured); }
        found := found + [s.value];
      }
      ReportedOn(kernel.run, n, before, kernel.now, pids - rest, pid, was, s);
      ConvincedOn(kernel.run, n, before, kernel.now, pids - rest, pid, was, s, k, captured);
      rest := rest - {pid};
      assert pids - rest == pids - (rest + {pid}) + {pid};
    }
  }

  /** Each of these that has stayed since `n` is reported. */
  ghost predicate AllReported(run: Course, n: nat, until: nat, pids: set<Pid>, found: seq<Survivor>) {
    forall pid: Pid, start: nat | pid in pids :: Stays(run, n, until, pid, start) ==> Reported(found, pid, start)
  }

  lemma ReportedOn(run: Course, n: nat, mid: nat, until: nat, pids: set<Pid>, pid: Pid, was: seq<Survivor>,
                   s: Option<Survivor>)
    requires n <= mid <= until && AllReported(run, n, mid, pids, was) && (s.Some? ==> s.value.pid == pid)
    requires forall start: nat | Stays(run, mid, until, pid, start) :: s.Some? && s.value.start == Some(start)
    ensures AllReported(run, n, until, pids + {pid}, was + if s.Some? then [s.value] else [])
  {
    var found := was + if s.Some? then [s.value] else [];
    forall p: Pid, start: nat | p in pids + {pid} && Stays(run, n, until, p, start) ensures Reported(found, p, start) {
      assert Stays(run, n, mid, p, start) && Stays(run, mid, until, p, start);
      if p == pid {
        assert found[|was|] == s.value;
      } else {
        var i :| 0 <= i < |was| && was[i].pid == p && was[i].start == Some(start);
        assert found[i] == was[i];
      }
    }
  }

  /** Each of these that convinces since `n` is reported as proven. */
  ghost predicate AllConvinced(run: Course, n: nat, until: nat, pids: set<Pid>, found: seq<Survivor>, k: Knowledge,
                               captured: map<Pid, nat>) {
    forall pid: Pid, start: nat, trail | pid in pids ::
      Convinces(run, n, until, trail, pid, start, k, captured) ==> Survivor(pid, Some(start), true) in found
  }

  lemma ConvincedOn(run: Course, n: nat, mid: nat, until: nat, pids: set<Pid>, pid: Pid, was: seq<Survivor>,
                    s: Option<Survivor>, k: Knowledge, captured: map<Pid, nat>)
    requires n <= mid <= until && AllConvinced(run, n, mid, pids, was, k, captured)
    requires s.Some? ==> s.value.pid == pid
    requires forall start: nat | Stays(run, mid, until, pid, start) :: s.Some? && s.value.start == Some(start)
    requires forall trail, start: nat | Convinces(run, mid, until, trail, pid, start, k, captured) ::
      s.Some? && s.value.proven
    ensures AllConvinced(run, n, until, pids + {pid}, was + if s.Some? then [s.value] else [], k, captured)
  {
    forall p: Pid, start: nat, trail |
      p in pids + {pid} && Convinces(run, n, until, trail, p, start, k, captured)
      ensures Survivor(p, Some(start), true) in was + if s.Some? then [s.value] else []
    {
      assert Convinces(run, n, mid, trail, p, start, k, captured);
      assert Convinces(run, mid, until, trail, p, start, k, captured);
      ConvincesStays(run, mid, until, trail, p, start, k, captured);
    }
  }

  /** A signal in order: it reached the very process that was proven, and between `from` and the signal that process
      was read as still admitted and no agent, and was then read inside the old cgroup. */
  ghost predicate InOrder(run: Course, from: nat, until: nat, m: Sent, entry: Survivor, k: Knowledge, group: string) {
    && m.pid == entry.pid == m.stat.pid == m.place.pid && Some(m.start) == entry.start
    && from <= m.stat.at < m.place.at < m.at < until && Is(run(m.at), m.pid, m.start)
    && WasRead(run, m.stat) && m.stat.stat.start == m.start && Admitted(k, m.pid, m.stat.stat)
    && !Held(k.agents, m.pid, m.start)
    && WasRead(run, m.place) && m.place.stat.start == m.start && Within(m.place.stat.cgroup, group)
  }

  /** Throughout, the proven process is admitted and its parents lead to a captured member. */
  ghost predicate Vouches(run: Course, from: nat, until: nat, trail: Trail, entry: Survivor, k: Knowledge,
                          captured: map<Pid, nat>) {
    entry.start.Some? && Convinces(run, from, until, trail, entry.pid, entry.start.value, k, captured)
  }

  /** Throughout, the process is there and inside the old cgroup. */
  ghost predicate Remains(run: Course, from: nat, until: nat, entry: Survivor, group: string) {
    entry.start.Some? && forall i | from <= i < until :: Inside(run(i), entry.pid, entry.start.value, group)
  }

  predicate Inside(t: Table, pid: Pid, start: nat, group: string) { Is(t, pid, start) && Within(t[pid].cgroup, group) }

  /** Reads identity and ownership through /proc. */
  method Vouch(kernel: Kernel, entry: Survivor, k: Knowledge, captured: map<Pid, nat>)
    returns (ok: bool, ghost seen: Link)
    modifies kernel`now
    ensures old(kernel.now) < kernel.now
    ensures ok ==> WasRead(kernel.run, seen) && seen.at == old(kernel.now) && seen.pid == entry.pid
    ensures ok ==> entry.start == Some(seen.stat.start) && !Held(k.agents, entry.pid, seen.stat.start)
    ensures ok ==> Admitted(k, entry.pid, seen.stat)
    ensures forall trail | Vouches(kernel.run, old(kernel.now), kernel.now, trail, entry, k, captured) :: ok
  {
    ghost var n := kernel.now;
    var stat := kernel.ReadStat(entry.pid);
    seen := Link(entry.pid, if stat.Some? then stat.value else Proc(0, 0, 0, ""), kernel.now - 1);
    if stat.None? {
      forall trail ensures !Vouches(kernel.run, n, kernel.now, trail, entry, k, captured) {
        assert entry.pid !in kernel.run(n);
      }
      return false, seen;
    }
    var a, chain := Proof(kernel, entry.pid, stat.value, k, captured, seen.at);
    ok := a.Proven? && Some(stat.value.start) == entry.start;
    if ok && |chain| > 1 { assert chain[..|chain| - 1][0] == chain[0]; }
  }

  /** Signals exactly one process: descriptor first, then identity, ownership and cgroup, then the signal. It fails to
      only if the process left, changed, or lost its proof or its place meanwhile. */
  method PidfdSignal(kernel: Kernel, entry: Survivor, signum: nat, group: string, k: Knowledge,
                     captured: map<Pid, nat>) returns (ok: bool)
    requires NoReturn(kernel.run)
    modifies kernel`now, kernel`sent
    ensures old(kernel.now) <= kernel.now && old(kernel.sent) <= kernel.sent
    ensures |kernel.sent| == |old(kernel.sent)| + if ok then 1 else 0
    ensures ok ==> var m := kernel.sent[|old(kernel.sent)|];
      InOrder(kernel.run, old(kernel.now), kernel.now, m, entry, k, group) && m.signum == signum
    ensures !ok && Remains(kernel.run, old(kernel.now), kernel.now, entry, group) ==>
      forall trail :: !Vouches(kernel.run, old(kernel.now), kernel.now, trail, entry, k, captured)
  {
    ghost var opening := kernel.now;
    var target := kernel.ReadStat(entry.pid);
    if target.None? {
      assert entry.start.Some? ==> !Inside(kernel.run(opening), entry.pid, entry.start.value, group);
      return false;
    }
    ghost var vouching := kernel.now;
    var vouched, seen := Vouch(kernel, entry, k, captured);
    if !vouched {
      ghost var later := kernel.now;
      forall trail ensures !Vouches(kernel.run, opening, later, trail, entry, k, captured) {
        assert !Vouches(kernel.run, vouching, later, trail, entry, k, captured);
      }
      return false;
    }
    ghost var at := kernel.now;
    var place := kernel.ReadStat(entry.pid);
    if place.None? || !Within(place.value.cgroup, group) {
      assert entry.start.Some? ==> !Inside(kernel.run(at), entry.pid, entry.start.value, group);
      return false;
    }
    ghost var sending := kernel.now;
    ok := kernel.Send(entry.pid, target.value.start, signum, seen, Link(entry.pid, place.value, at));
    if !ok && Remains(kernel.run, opening, kernel.now, entry, group) {
      assert Inside(kernel.run(opening), entry.pid, entry.start.value, group);
      assert Inside(kernel.run(sending), entry.pid, entry.start.value, group);
    }
    if ok { StillBound(kernel.run, entry.pid, target.value.start, opening, seen.at, at, sending); }
  }

  /** A descriptor that still reaches a process was bound to what the PID named in between. */
  lemma StillBound(run: Course, pid: Pid, start: nat, bound: nat, seen: nat, inside: nat, sending: nat)
    requires NoReturn(run) && bound <= seen <= inside <= sending
    requires Is(run(bound), pid, start) && Is(run(sending), pid, start)
    ensures Is(run(seen), pid, start) && Is(run(inside), pid, start)
  {
    assert Continues(run, bound, seen, sending) && Continues(run, bound, inside, sending);
  }

  const TERM := 15
  const KILL := 9

  function WithProven(capture: map<Pid, nat>, proven: seq<Survivor>): map<Pid, nat> {
    if proven == [] then capture
    else
      var last := proven[|proven| - 1];
      var rest := WithProven(capture, proven[..|proven| - 1]);
      if last.start.Some? then rest[last.pid := last.start.value] else rest
  }

  /** Still the same process, and still inside the old cgroup. */
  method Lingering(kernel: Kernel, entry: Survivor, group: string) returns (r: bool)
    modifies kernel`now
    ensures old(kernel.now) <= kernel.now
    ensures r ==> WasInside(kernel.run, old(kernel.now), kernel.now, entry.pid, group)
    ensures r ==> entry.start.Some? && Is(kernel.run(old(kernel.now)), entry.pid, entry.start.value)
    ensures r ==> forall i :: old(kernel.now) <= i < kernel.now ==> entry.pid in kernel.run(i)
    ensures !r ==> !Remains(kernel.run, old(kernel.now), kernel.now, entry, group)
  {
    ghost var n := kernel.now;
    var stat := kernel.ReadStat(entry.pid);
    if stat.None? || Some(stat.value.start) != entry.start {
      assert entry.start.Some? ==> !Inside(kernel.run(n), entry.pid, entry.start.value, group);
      return false;
    }
    ghost var mid := kernel.now;
    var gone := Gone(kernel, entry.pid);
    if gone {
      assert !Stays(kernel.run, mid, kernel.now, entry.pid, stat.value.start);
      if Remains(kernel.run, n, kernel.now, entry, group) {
        RemainsStays(kernel.run, n, mid, kernel.now, entry, group);
        assert false;
      }
      return false;
    }
    ghost var at := kernel.now;
    var place := kernel.ReadStat(entry.pid);
    r := place.Some? && Within(place.value.cgroup, group);
    assert !r ==> !Inside(kernel.run(at), entry.pid, stat.value.start, group);
  }

  lemma RemainsStays(run: Course, from: nat, mid: nat, until: nat, entry: Survivor, group: string)
    requires Remains(run, from, until, entry, group) && from <= mid
    ensures Stays(run, mid, until, entry.pid, entry.start.value)
  {
    forall i | mid <= i < until ensures Is(run(i), entry.pid, entry.start.value) {
      assert Inside(run(i), entry.pid, entry.start.value, group);
    }
  }

  lemma RemainsNarrower(run: Course, from: nat, until: nat, low: nat, high: nat, entry: Survivor, group: string)
    requires Remains(run, from, until, entry, group) && from <= low && high <= until
    ensures Remains(run, low, high, entry, group)
  {
  }

  ghost predicate SomeInside(run: Course, from: nat, until: nat, some: seq<Survivor>, group: string) {
    exists e :: e in some && WasInside(run, from, until, e.pid, group)
  }

  method Alive(kernel: Kernel, proven: seq<Survivor>, group: string) returns (alive: seq<Survivor>)
    modifies kernel`now
    ensures old(kernel.now) <= kernel.now && forall e :: e in alive ==> e in proven
    ensures alive != [] ==> SomeInside(kernel.run, old(kernel.now), kernel.now, proven, group)
    ensures forall e :: e in proven && Remains(kernel.run, old(kernel.now), kernel.now, e, group) ==> e in alive
  {
    alive := [];
    ghost var n := kernel.now;
    for i := 0 to |proven|
      invariant n <= kernel.now && forall e :: e in alive ==> e in proven
      invariant alive != [] ==> SomeInside(kernel.run, n, kernel.now, proven, group)
      invariant forall e :: e in proven[..i] && Remains(kernel.run, n, kernel.now, e, group) ==> e in alive
    {
      ghost var before, was := kernel.now, alive;
      var lingers := Lingering(kernel, proven[i], group);
      if lingers { alive := alive + [proven[i]]; }
      forall e | e in proven[..i + 1] && Remains(kernel.run, n, kernel.now, e, group) ensures e in alive {
        RemainsNarrower(kernel.run, n, kernel.now, n, before, e, group);
        RemainsNarrower(kernel.run, n, kernel.now, before, kernel.now, e, group);
        assert e in proven[..i] || e == proven[i];
      }
    }
  }

  /** Every signal of a batch went to a proven survivor in order. */
  ghost predicate AllInOrder(run: Course, from: nat, until: nat, batch: seq<Sent>, proven: seq<Survivor>,
                             k: Knowledge, group: string) {
    forall i :: 0 <= i < |batch| ==> OneInOrder(run, from, until, batch[i], proven, k, group)
  }

  ghost predicate OneInOrder(run: Course, from: nat, until: nat, m: Sent, proven: seq<Survivor>, k: Knowledge,
                             group: string) {
    exists e :: e in proven && InOrder(run, from, until, m, e, k, group)
  }

  lemma InOrderWider(run: Course, from: nat, until: nat, low: nat, high: nat, batch: seq<Sent>, alive: seq<Survivor>,
                     proven: seq<Survivor>, k: Knowledge, group: string)
    requires AllInOrder(run, from, until, batch, alive, k, group) && low <= from && until <= high
    requires forall e :: e in alive ==> e in proven
    ensures AllInOrder(run, low, high, batch, proven, k, group)
  {
    forall i | 0 <= i < |batch| ensures OneInOrder(run, low, high, batch[i], proven, k, group) {
      assert OneInOrder(run, from, until, batch[i], alive, k, group);
      var e :| e in alive && InOrder(run, from, until, batch[i], e, k, group);
      assert e in proven && InOrder(run, low, high, batch[i], e, k, group);
    }
  }

  /** Throughout, a survivor is there, inside the old cgroup, admitted and no agent. */
  ghost predicate Steadfast(run: Course, from: nat, until: nat, e: Survivor, k: Knowledge, group: string) {
    && Remains(run, from, until, e, group) && e.pid > 1 && !Held(k.agents, e.pid, e.start.value)
    && forall i :: from <= i < until ==> e.pid in run(i) && Admitted(k, e.pid, run(i)[e.pid])
  }

  lemma SteadfastNarrower(run: Course, from: nat, until: nat, low: nat, high: nat, e: Survivor, k: Knowledge,
                          group: string)
    requires Steadfast(run, from, until, e, k, group) && from <= low && high <= until
    ensures Steadfast(run, low, high, e, k, group)
  {
    RemainsNarrower(run, from, until, low, high, e, group);
  }

  /** A steadfast process that is held itself vouches for itself. */
  lemma SteadfastVouches(run: Course, from: nat, until: nat, e: Survivor, k: Knowledge, captured: map<Pid, nat>,
                         group: string)
    requires Steadfast(run, from, until, e, k, group) && Held(captured, e.pid, e.start.value)
    ensures Vouches(run, from, until, [(e.pid, e.start.value)], e, k, captured)
  {
    forall i | from <= i < until ensures SteadyAt(run(i), [(e.pid, e.start.value)]) {
      assert Inside(run(i), e.pid, e.start.value, group);
    }
  }

  /** This signal reached this survivor. */
  ghost predicate Signalled(batch: seq<Sent>, e: Survivor, signum: nat) {
    exists i ::
      0 <= i < |batch| && batch[i].pid == e.pid && Some(batch[i].start) == e.start && batch[i].signum == signum
  }

  lemma SignalledLater(batch: seq<Sent>, more: seq<Sent>, e: Survivor, signum: nat)
    ensures Signalled(batch, e, signum) ==> Signalled(batch + more, e, signum) && Signalled(more + batch, e, signum)
  {
    if i :| 0 <= i < |batch| && batch[i].pid == e.pid && Some(batch[i].start) == e.start && batch[i].signum == signum {
      assert (batch + more)[i] == batch[i] && (more + batch)[|more| + i] == batch[i];
    }
  }

  /** Each of these that is held and steadfast was signalled. */
  ghost predicate Reached(run: Course, from: nat, until: nat, some: seq<Survivor>, batch: seq<Sent>, signum: nat,
                          k: Knowledge, captured: map<Pid, nat>, group: string) {
    forall e | e in some && Steadfast(run, from, until, e, k, group) && Held(captured, e.pid, e.start.value) ::
      Signalled(batch, e, signum)
  }

  /** The list `retire` returns names the signals that were sent, in order. */
  ghost predicate Names(signalled: seq<(Survivor, nat)>, batch: seq<Sent>) {
    |signalled| == |batch| && forall i :: 0 <= i < |batch| ==>
      signalled[i].0.pid == batch[i].pid && signalled[i].0.start == Some(batch[i].start)
      && signalled[i].1 == batch[i].signum
  }

  /** Terminations first, kills after. */
  ghost predicate Phased(batch: seq<Sent>, terms: nat) {
    terms <= |batch| && forall i :: 0 <= i < |batch| ==> batch[i].signum == if i < terms then TERM else KILL
  }

  method SignalAll(kernel: Kernel, alive: seq<Survivor>, signum: nat, group: string, k: Knowledge,
                   captured: map<Pid, nat>) returns (signalled: seq<(Survivor, nat)>)
    requires NoReturn(kernel.run)
    modifies kernel`now, kernel`sent
    ensures old(kernel.now) <= kernel.now && old(kernel.sent) <= kernel.sent
    ensures var batch := kernel.sent[|old(kernel.sent)|..];
      && AllInOrder(kernel.run, old(kernel.now), kernel.now, batch, alive, k, group) && Names(signalled, batch)
      && (forall m :: m in batch ==> m.signum == signum)
      && Reached(kernel.run, old(kernel.now), kernel.now, alive, batch, signum, k, captured, group)
  {
    signalled := [];
    ghost var from, n := kernel.now, |kernel.sent|;
    for i := 0 to |alive|
      invariant from <= kernel.now && old(kernel.sent) <= kernel.sent
      invariant AllInOrder(kernel.run, from, kernel.now, kernel.sent[n..], alive, k, group)
      invariant Names(signalled, kernel.sent[n..]) && forall m :: m in kernel.sent[n..] ==> m.signum == signum
      invariant Reached(kernel.run, from, kernel.now, alive[..i], kernel.sent[n..], signum, k, captured, group)
    {
      ghost var before, was := kernel.now, kernel.sent;
      var ok := PidfdSignal(kernel, alive[i], signum, group, k, captured);
      ReachedOn(kernel.run, from, before, kernel.now, alive, i, was[n..], kernel.sent[|was|..], signum, k, captured,
        group);
      assert kernel.sent[n..] == was[n..] + kernel.sent[|was|..];
      InOrderWider(kernel.run, from, before, from, kernel.now, was[n..], alive, alive, k, group);
      if ok {
        signalled := signalled + [(alive[i], signum)];
        assert kernel.sent[n..] == was[n..] + [kernel.sent[|was|]];
        assert alive[i] in alive && InOrder(kernel.run, from, kernel.now, kernel.sent[|was|], alive[i], k, group);
        assert OneInOrder(kernel.run, from, kernel.now, kernel.sent[|was|], alive, k, group);
      } else {
        assert kernel.sent == was;
      }
    }
  }

  lemma ReachedOn(run: Course, from: nat, mid: nat, until: nat, alive: seq<Survivor>, i: nat, batch: seq<Sent>,
                  more: seq<Sent>, signum: nat, k: Knowledge, captured: map<Pid, nat>, group: string)
    requires from <= mid <= until && i < |alive|
    requires Reached(run, from, mid, alive[..i], batch, signum, k, captured, group)
    requires if more == [] then Remains(run, mid, until, alive[i], group) ==>
                  forall trail :: !Vouches(run, mid, until, trail, alive[i], k, captured)
             else Signalled(more, alive[i], signum)
    ensures Reached(run, from, until, alive[..i + 1], batch + more, signum, k, captured, group)
  {
    forall e | e in alive[..i + 1] && Steadfast(run, from, until, e, k, group) && Held(captured, e.pid, e.start.value)
      ensures Signalled(batch + more, e, signum)
    {
      SteadfastNarrower(run, from, until, from, mid, e, k, group);
      SteadfastNarrower(run, from, until, mid, until, e, k, group);
      if e in alive[..i] {
        SignalledLater(batch, more, e, signum);
      } else {
        SteadfastVouches(run, mid, until, e, k, captured, group);
        SignalledLater(more, batch, e, signum);
      }
    }
  }

  /** A signalled process did not stay inside the old cgroup since. */
  ghost predicate Left(run: Course, from: nat, until: nat, sent: seq<Sent>, group: string) {
    forall m :: m in sent ==> !Remains(run, from, until, Survivor(m.pid, Some(m.start), true), group)
  }

  /** As often as may be polled, one poll after another, somebody was still inside. */
  ghost predicate Endured(run: Course, from: nat, until: nat, times: seq<nat>, some: seq<Survivor>, group: string) {
    && |times| > 0 && from <= times[0] && times[|times| - 1] <= until
    && forall i :: 0 < i < |times| ==> times[i - 1] <= times[i] && SomeInside(run, times[i - 1], times[i], some, group)
  }

  /** Somebody was found inside, was signalled, and then either all that were signalled left or were given their time. */
  ghost predicate GracedSince(run: Course, from: nat, after: nat, until: nat, times: seq<nat>, sent: seq<Sent>,
                              proven: seq<Survivor>, group: string, polls: nat) {
    && from <= after <= until && SomeInside(run, from, after, proven, group) && (forall m :: m in sent ==> m.at < after)
    && (Left(run, after, until, sent, group) || (|times| == polls + 1 && Endured(run, after, until, times, proven, group)))
  }

  ghost predicate Graced(run: Course, from: nat, until: nat, sent: seq<Sent>, proven: seq<Survivor>, group: string,
                         polls: nat) {
    exists after, times :: GracedSince(run, from, after, until, times, sent, proven, group, polls)
  }

  /** Terminations first, and kills only after the terminated were given their time. */
  ghost predicate SpacedSome(run: Course, from: nat, until: nat, batch: seq<Sent>, proven: seq<Survivor>, group: string,
                             polls: nat) {
    exists low: nat, terms: nat ::
      from <= low <= until && Phased(batch, terms) && Spaced(run, low, batch, terms, proven, group, polls)
  }

  ghost predicate Spaced(run: Course, from: nat, batch: seq<Sent>, terms: nat, proven: seq<Survivor>, group: string,
                         polls: nat) {
    terms < |batch| ==>
      exists mid: nat :: Graced(run, from, mid, batch[..terms], proven, group, polls)
                    && forall i :: terms <= i < |batch| ==> mid <= batch[i].stat.at
  }

  lemma SomeInsideWider(run: Course, from: nat, until: nat, low: nat, high: nat, some: seq<Survivor>,
                        more: seq<Survivor>, group: string)
    requires SomeInside(run, from, until, some, group) && low <= from && until <= high
    requires forall e :: e in some ==> e in more
    ensures SomeInside(run, low, high, more, group)
  {
  }

  lemma RemainsSame(run: Course, from: nat, until: nat, e: Survivor, f: Survivor, group: string)
    requires Remains(run, from, until, e, group) && e.pid == f.pid && e.start == f.start
    ensures Remains(run, from, until, f, group)
  {
  }

  /** Once each of those that may have been signalled was found gone, the signalled have left. */
  lemma LeftBy(run: Course, sending: nat, from: nat, low: nat, until: nat, batch: seq<Sent>, alive: seq<Survivor>,
               k: Knowledge, group: string)
    requires AllInOrder(run, sending, from, batch, alive, k, group) && from <= low
    requires forall e :: e in alive ==> !Remains(run, low, until, e, group)
    ensures Left(run, from, until, batch, group)
  {
    forall m | m in batch ensures !Remains(run, from, until, Survivor(m.pid, Some(m.start), true), group) {
      var i :| 0 <= i < |batch| && batch[i] == m;
      assert OneInOrder(run, sending, from, batch[i], alive, k, group);
      var e :| e in alive && InOrder(run, sending, from, m, e, k, group);
      if Remains(run, from, until, Survivor(m.pid, Some(m.start), true), group) {
        RemainsNarrower(run, from, until, low, until, Survivor(m.pid, Some(m.start), true), group);
        RemainsSame(run, low, until, Survivor(m.pid, Some(m.start), true), e, group);
      }
    }
  }

  /** Waits until all that were signalled have left, or for as many polls as there may be. */
  method AwaitLeaving(kernel: Kernel, alive: seq<Survivor>, ghost proven: seq<Survivor>, ghost batch: seq<Sent>,
                      group: string, ghost k: Knowledge, polls: nat, ghost from: nat, ghost before: nat)
    requires from <= before <= kernel.now && (forall e :: e in alive ==> e in proven)
    requires AllInOrder(kernel.run, before, kernel.now, batch, alive, k, group)
    requires SomeInside(kernel.run, from, kernel.now, proven, group)
    modifies kernel`now
    ensures old(kernel.now) <= kernel.now
    ensures Graced(kernel.run, from, kernel.now, batch, proven, group, polls)
  {
    ghost var after, times := kernel.now, [kernel.now];
    forall m | m in batch ensures m.at < after {
      var i :| 0 <= i < |batch| && batch[i] == m;
      assert OneInOrder(kernel.run, before, after, batch[i], alive, k, group);
    }
    for poll := 0 to polls
      invariant after <= kernel.now && |times| == poll + 1 && times[poll] == kernel.now
      invariant Endured(kernel.run, after, kernel.now, times, proven, group)
    {
      ghost var low := kernel.now;
      var still := Alive(kernel, alive, group);
      if still == [] {
        LeftBy(kernel.run, before, after, low, kernel.now, batch, alive, k, group);
        assert GracedSince(kernel.run, from, after, kernel.now, times, batch, proven, group, polls);
        return;
      }
      SomeInsideWider(kernel.run, low, kernel.now, low, kernel.now, alive, proven, group);
      times := times + [kernel.now];
    }
    assert GracedSince(kernel.run, from, after, kernel.now, times, batch, proven, group, polls);
  }

  /** Signals once those still there, then waits for them. */
  method Phase(kernel: Kernel, proven: seq<Survivor>, signum: nat, group: string, k: Knowledge,
               captured: map<Pid, nat>, polls: nat) returns (signalled: seq<(Survivor, nat)>, over: bool)
    requires NoReturn(kernel.run)
    modifies kernel`now, kernel`sent
    ensures old(kernel.now) <= kernel.now && old(kernel.sent) <= kernel.sent
    ensures var batch := kernel.sent[|old(kernel.sent)|..];
      && AllInOrder(kernel.run, old(kernel.now), kernel.now, batch, proven, k, group) && Names(signalled, batch)
      && (forall m :: m in batch ==> m.signum == signum) && (over ==> batch == [])
      && Reached(kernel.run, old(kernel.now), kernel.now, proven, batch, signum, k, captured, group)
      && (!over ==> Graced(kernel.run, old(kernel.now), kernel.now, batch, proven, group, polls))
  {
    ghost var from, n := kernel.now, |kernel.sent|;
    var alive := Alive(kernel, proven, group);
    if alive == [] { return [], true; }
    ghost var before := kernel.now;
    over := false;
    signalled := SignalAll(kernel, alive, signum, group, k, captured);
    ghost var after, sent := kernel.now, kernel.sent;
    SomeInsideWider(kernel.run, from, before, from, after, proven, proven, group);
    AwaitLeaving(kernel, alive, proven, sent[n..], group, k, polls, from, before);
    InOrderWider(kernel.run, before, after, from, kernel.now, kernel.sent[n..], alive, proven, k, group);
    forall e | e in proven && Steadfast(kernel.run, from, kernel.now, e, k, group)
      && Held(captured, e.pid, e.start.value) ensures Signalled(kernel.sent[n..], e, signum)
    {
      SteadfastNarrower(kernel.run, from, kernel.now, from, before, e, k, group);
      SteadfastNarrower(kernel.run, from, kernel.now, before, after, e, k, group);
    }
  }

  /** What a batch of signals owes: each in order, named in the answer, terminations before kills. */
  ghost predicate Accounted(run: Course, from: nat, until: nat, batch: seq<Sent>, named: seq<(Survivor, nat)>,
                            terms: nat, proven: seq<Survivor>, k: Knowledge, group: string) {
    AllInOrder(run, from, until, batch, proven, k, group) && Names(named, batch) && Phased(batch, terms)
  }

  lemma BothPhases(run: Course, from: nat, mid: nat, until: nat, n: nat, was: seq<Sent>, sent: seq<Sent>,
                   named: seq<(Survivor, nat)>, killed: seq<(Survivor, nat)>, proven: seq<Survivor>, k: Knowledge,
                   group: string)
    requires n <= |was| && was <= sent && from <= mid <= until
    requires AllInOrder(run, from, mid, was[n..], proven, k, group) && Names(named, was[n..])
    requires AllInOrder(run, mid, until, sent[|was|..], proven, k, group) && Names(killed, sent[|was|..])
    requires forall m :: m in was[n..] ==> m.signum == TERM
    requires forall m :: m in sent[|was|..] ==> m.signum == KILL
    ensures Accounted(run, from, until, sent[n..], named + killed, |was| - n, proven, k, group)
  {
    var first, second := was[n..], sent[|was|..];
    assert sent[n..] == first + second;
    InOrderWider(run, from, mid, from, until, first, proven, proven, k, group);
    InOrderWider(run, mid, until, from, until, second, proven, proven, k, group);
    InOrderAppend(run, from, until, first, second, proven, k, group);
    NamesAppend(named, first, killed, second);
  }

  lemma KillsLater(run: Course, from: nat, mid: nat, until: nat, n: nat, was: seq<Sent>, sent: seq<Sent>,
                   proven: seq<Survivor>, k: Knowledge, group: string, polls: nat)
    requires n <= |was| && was <= sent && Graced(run, from, mid, was[n..], proven, group, polls)
    requires AllInOrder(run, mid, until, sent[|was|..], proven, k, group)
    ensures Spaced(run, from, sent[n..], |was| - n, proven, group, polls)
  {
    var batch, terms := sent[n..], |was| - n;
    assert batch[..terms] == was[n..];
    forall i | terms <= i < |batch| ensures mid <= batch[i].stat.at {
      assert batch[i] == sent[|was|..][i - terms];
      assert OneInOrder(run, mid, until, sent[|was|..][i - terms], proven, k, group);
    }
  }

  lemma InOrderAppend(run: Course, from: nat, until: nat, first: seq<Sent>, second: seq<Sent>, proven: seq<Survivor>,
                      k: Knowledge, group: string)
    requires AllInOrder(run, from, until, first, proven, k, group)
    requires AllInOrder(run, from, until, second, proven, k, group)
    ensures AllInOrder(run, from, until, first + second, proven, k, group)
  {
    var batch := first + second;
    forall i | 0 <= i < |batch| ensures OneInOrder(run, from, until, batch[i], proven, k, group) {
      assert batch[i] == if i < |first| then first[i] else second[i - |first|];
    }
  }

  lemma NamesAppend(named: seq<(Survivor, nat)>, first: seq<Sent>, killed: seq<(Survivor, nat)>, second: seq<Sent>)
    requires Names(named, first) && Names(killed, second)
    requires (forall m :: m in first ==> m.signum == TERM) && (forall m :: m in second ==> m.signum == KILL)
    ensures Names(named + killed, first + second) && Phased(first + second, |first|)
  {
    var batch := first + second;
    forall i | 0 <= i < |batch| ensures batch[i].signum == if i < |first| then TERM else KILL {
      assert batch[i] == if i < |first| then first[i] else second[i - |first|];
      assert if i < |first| then batch[i] in first else batch[i] in second;
    }
  }

  /** Each survivor that is steadfast throughout was terminated and killed. */
  ghost predicate AllReached(run: Course, from: nat, until: nat, proven: seq<Survivor>, batch: seq<Sent>, k: Knowledge,
                             group: string) {
    forall e | e in proven && Steadfast(run, from, until, e, k, group) ::
      Signalled(batch, e, TERM) && Signalled(batch, e, KILL)
  }

  lemma {:induction false} ProvenHeld(capture: map<Pid, nat>, proven: seq<Survivor>, i: nat)
    requires DistinctPids(proven) && i < |proven| && proven[i].start.Some?
    ensures Held(WithProven(capture, proven), proven[i].pid, proven[i].start.value)
  {
    var n := |proven| - 1;
    if i < n {
      assert DistinctPids(proven[..n]);
      ProvenHeld(capture, proven[..n], i);
      assert proven[i].pid != proven[n].pid;
    }
  }

  lemma BothReached(run: Course, from: nat, mid: nat, until: nat, n: nat, was: seq<Sent>, sent: seq<Sent>,
                    proven: seq<Survivor>, capture: map<Pid, nat>, k: Knowledge, group: string)
    requires from <= mid <= until && DistinctPids(proven) && n <= |was| && was <= sent
    requires Reached(run, from, mid, proven, was[n..], TERM, k, WithProven(capture, proven), group)
    requires Reached(run, mid, until, proven, sent[|was|..], KILL, k, WithProven(capture, proven), group)
    ensures AllReached(run, from, until, proven, sent[n..], k, group)
  {
    var first, second := was[n..], sent[|was|..];
    assert sent[n..] == first + second;
    forall e | e in proven && Steadfast(run, from, until, e, k, group)
      ensures Signalled(sent[n..], e, TERM) && Signalled(sent[n..], e, KILL)
    {
      var i :| 0 <= i < |proven| && proven[i] == e;
      ProvenHeld(capture, proven, i);
      SteadfastNarrower(run, from, until, from, mid, e, k, group);
      SteadfastNarrower(run, from, until, mid, until, e, k, group);
      SignalledLater(first, second, e, TERM);
      SignalledLater(second, first, e, KILL);
    }
  }

  /** Nobody steadfast was among the survivors when the first phase found nobody left. */
  lemma NobodyLeft(run: Course, from: nat, until: nat, proven: seq<Survivor>, capture: map<Pid, nat>, k: Knowledge,
                   group: string)
    requires DistinctPids(proven) && Reached(run, from, until, proven, [], TERM, k, WithProven(capture, proven), group)
    ensures AllReached(run, from, until, proven, [], k, group)
  {
    forall e | e in proven ensures !Steadfast(run, from, until, e, k, group) {
      if Steadfast(run, from, until, e, k, group) {
        var i :| 0 <= i < |proven| && proven[i] == e;
        ProvenHeld(capture, proven, i);
        assert false;
      }
    }
  }

  /** Terminates, then kills. Whatever exits or is reused meanwhile, only proven survivors are ever signalled, each
      one that is steadfast is, and the answer names each signal that was sent. */
  method Retire(kernel: Kernel, proven: seq<Survivor>, group: string, k: Knowledge, capture: map<Pid, nat>, polls: nat)
    returns (signalled: seq<(Survivor, nat)>, ghost terms: nat)
    requires NoReturn(kernel.run)
    modifies kernel`now, kernel`sent
    ensures old(kernel.now) <= kernel.now && old(kernel.sent) <= kernel.sent
    ensures Accounted(kernel.run, old(kernel.now), kernel.now, kernel.sent[|old(kernel.sent)|..], signalled, terms,
                      proven, k, group)
    ensures Spaced(kernel.run, old(kernel.now), kernel.sent[|old(kernel.sent)|..], terms, proven, group, polls)
    ensures DistinctPids(proven) ==>
      AllReached(kernel.run, old(kernel.now), kernel.now, proven, kernel.sent[|old(kernel.sent)|..], k, group)
  {
    ghost var from, n := kernel.now, |kernel.sent|;
    var captured := WithProven(capture, proven);
    var over;
    signalled, over := Phase(kernel, proven, TERM, group, k, captured, polls);
    terms := |kernel.sent| - n;
    if over {
      if DistinctPids(proven) { NobodyLeft(kernel.run, from, kernel.now, proven, capture, k, group); }
      return;
    }
    ghost var mid, was := kernel.now, kernel.sent;
    var killed;
    killed, over := Phase(kernel, proven, KILL, group, k, captured, polls);
    BothPhases(kernel.run, from, mid, kernel.now, n, was, kernel.sent, signalled, killed, proven, k, group);
    KillsLater(kernel.run, from, mid, kernel.now, n, was, kernel.sent, proven, k, group, polls);
    if DistinctPids(proven) {
      BothReached(kernel.run, from, mid, kernel.now, n, was, kernel.sent, proven, capture, k, group);
    }
    signalled := signalled + killed;
  }

  datatype Owner = Agent | Current

  /** The chain's last link is owned, and none before it is. */
  ghost predicate Reaches(run: Course, from: nat, until: nat, chain: seq<Link>, pid: Pid,
                          owners: map<Pid, (Owner, nat)>, owner: Owner) {
    && chain != [] && Walked(run, from, until, chain) && chain[0].pid == pid
    && (forall i :: 0 <= i < |chain| ==> chain[i].pid > 1)
    && Unclaimed(chain[..|chain| - 1], owners) && OwnedBy(owners, chain[|chain| - 1], owner)
  }

  predicate OwnedBy(owners: map<Pid, (Owner, nat)>, l: Link, owner: Owner) {
    l.pid in owners && owners[l.pid] == (owner, l.stat.start)
  }

  ghost predicate Unclaimed(chain: seq<Link>, owners: map<Pid, (Owner, nat)>) {
    forall i :: 0 <= i < |chain| ==> !OwnedBy(owners, chain[i], Agent) && !OwnedBy(owners, chain[i], Current)
  }

  /** A chain that met no owner and ended, or whose next process was gone. */
  ghost predicate BrokenOff(run: Course, from: nat, until: nat, chain: seq<Link>, pid: Pid,
                            owners: map<Pid, (Owner, nat)>) {
    && Walked(run, from, until, chain) && Unclaimed(chain, owners)
    && (Exhausted(chain, pid) || (until > 0 && NextPid(chain, pid) !in run(until - 1)))
  }

  /** Throughout, the parents of a process lead to one of the serving generation, with no agent before it. */
  ghost predicate Led(run: Course, from: nat, until: nat, trail: Trail, pid: Pid, owners: map<Pid, (Owner, nat)>) {
    && Walkable(trail) && trail[0].0 == pid && Steady(run, from, until, trail)
    && OwnedAt(owners, trail[|trail| - 1], Current)
    && forall j :: 0 <= j < |trail| - 1 ==> !OwnedAt(owners, trail[j], Agent)
  }

  predicate OwnedAt(owners: map<Pid, (Owner, nat)>, p: (Pid, nat), owner: Owner) {
    p.0 in owners && owners[p.0] == (owner, p.1)
  }

  /** A walk along such a trail neither meets an agent nor comes to an end. */
  lemma LedReaches(run: Course, from: nat, until: nat, trail: Trail, pid: Pid, owners: map<Pid, (Owner, nat)>,
                   chain: seq<Link>)
    requires Led(run, from, until, trail, pid, owners) && from < until
    ensures !Reaches(run, from, until, chain, pid, owners, Agent)
    ensures chain == [] || chain[0].pid == pid ==> !BrokenOff(run, from, until, chain, pid, owners)
  {
    var last := |trail| - 1;
    if chain != [] && chain[0].pid == pid && Walked(run, from, until, chain) {
      forall n | 0 <= n < |chain| && n < |trail| ensures (chain[n].pid, chain[n].stat.start) == trail[n] {
        FollowsTrail(run, from, until, trail, chain, n);
      }
      if |chain| > last {
        assert OwnedBy(owners, chain[last], Current);
        assert |chain| - 1 > last ==> chain[..|chain| - 1][last] == chain[last];
      }
    }
    if (chain == [] || chain[0].pid == pid) && |chain| <= last && Walked(run, from, until, chain) {
      GoesOn(run, from, until, trail, pid, chain);
    }
  }

  /** Walks the parents of a process to the first owned one. Where they lead to one of the serving generation throughout,
      it is found. */
  method OwnerOf(kernel: Kernel, pid: Pid, owners: map<Pid, (Owner, nat)>)
    returns (r: Option<Owner>, ghost chain: seq<Link>)
    modifies kernel`now
    ensures old(kernel.now) <= kernel.now
    ensures r.Some? ==> Reaches(kernel.run, old(kernel.now), kernel.now, chain, pid, owners, r.value)
    ensures r.None? ==> BrokenOff(kernel.run, old(kernel.now), kernel.now, chain, pid, owners)
    ensures forall trail | Led(kernel.run, old(kernel.now), kernel.now, trail, pid, owners) :: r == Some(Current)
  {
    ghost var from := kernel.now;
    r, chain := WalkOwner(kernel, pid, owners);
    forall trail | Led(kernel.run, from, kernel.now, trail, pid, owners) ensures r == Some(Current) {
      LedReaches(kernel.run, from, kernel.now, trail, pid, owners, chain);
      assert r.Some? && r.value != Agent;
    }
  }

  method WalkOwner(kernel: Kernel, pid: Pid, owners: map<Pid, (Owner, nat)>)
    returns (r: Option<Owner>, ghost chain: seq<Link>)
    modifies kernel`now
    ensures old(kernel.now) <= kernel.now && (pid > 1 ==> old(kernel.now) < kernel.now)
    ensures r.Some? ==> Reaches(kernel.run, old(kernel.now), kernel.now, chain, pid, owners, r.value)
    ensures r.None? ==> BrokenOff(kernel.run, old(kernel.now), kernel.now, chain, pid, owners)
    ensures chain != [] ==> chain[0].pid == pid
  {
    chain := [];
    ghost var from := kernel.now;
    var current, seen: set<Pid> := pid, {};
    while current > 1 && current !in seen && |seen| < DEPTH
      invariant from <= kernel.now && (seen != {} ==> from < kernel.now) && (seen == {} ==> current == pid)
      invariant Walking(kernel.run, from, kernel.now, chain, pid, current, seen) && Unclaimed(chain, owners)
      decreases DEPTH - |seen|
    {
      var stat, link := OwnerTurn(kernel, current, pid, owners, from, chain, seen);
      if stat.None? { return None, chain; }
      chain := chain + [link];
      if current in owners && owners[current].1 == stat.value.start { return Some(owners[current].0), chain; }
      seen := seen + {current};
      current := stat.value.parent;
    }
    WalkEnds(kernel.run, from, kernel.now, chain, pid, current, seen);
    assert BrokenOff(kernel.run, from, kernel.now, chain, pid, owners);
    r := None;
  }

  /** The next row of a walk from `pid`: an owned one, or one the walk goes on from. */
  method OwnerTurn(kernel: Kernel, current: Pid, ghost pid: Pid, owners: map<Pid, (Owner, nat)>, ghost from: nat,
                   ghost chain: seq<Link>, ghost seen: set<Pid>) returns (stat: Option<Proc>, ghost link: Link)
    requires from <= kernel.now && current !in seen && current > 1 && |seen| < DEPTH && Unclaimed(chain, owners)
    requires Walking(kernel.run, from, kernel.now, chain, pid, current, seen)
    modifies kernel`now
    ensures kernel.now == old(kernel.now) + 1
    ensures stat.None? ==> BrokenOff(kernel.run, from, kernel.now, chain, pid, owners)
    ensures stat.Some? ==> link.pid == current && link.stat == stat.value
    ensures stat.Some? ==>
      Walking(kernel.run, from, kernel.now, chain + [link], pid, stat.value.parent, seen + {current})
    ensures stat.Some? ==>
      if current in owners && owners[current].1 == stat.value.start then
        Reaches(kernel.run, from, kernel.now, chain + [link], pid, owners, owners[current].0)
      else Unclaimed(chain + [link], owners)
  {
    stat := kernel.ReadStat(current);
    link := Link(current, if stat.Some? then stat.value else Proc(0, 0, 0, ""), kernel.now - 1);
    if stat.Some? {
      WalkingOn(kernel.run, from, link.at, chain, pid, seen, link, kernel.now);
      OwnerStep(kernel.run, from, kernel.now, chain, link, pid, owners);
    }
  }

  lemma OwnerStep(run: Course, from: nat, until: nat, was: seq<Link>, l: Link, pid: Pid, owners: map<Pid, (Owner, nat)>)
    requires Walked(run, from, until, was + [l]) && Unclaimed(was, owners) && (was + [l])[0].pid == pid
    requires forall p :: p in Pids(was + [l]) ==> p > 1
    ensures var chain := was + [l];
      if l.pid in owners && owners[l.pid].1 == l.stat.start then
        Reaches(run, from, until, chain, pid, owners, owners[l.pid].0)
      else Unclaimed(chain, owners)
  {
    var chain := was + [l];
    assert chain[..|was|] == was;
    assert forall i :: 0 <= i < |chain| ==> chain[i].pid in Pids(chain);
  }

  function Owners(k: Knowledge, serving: map<Pid, nat>): map<Pid, (Owner, nat)> {
    (map pid | pid in k.agents :: (Agent, k.agents[pid])) + (map pid | pid in serving :: (Current, serving[pid]))
  }

  ghost predicate ReachesServing(run: Course, from: nat, until: nat, chain: seq<Link>, l: Link, k: Knowledge,
                                 serving: map<Pid, nat>) {
    Reaches(run, from, until, chain, l.pid, Owners(k, serving), Current)
  }

  /** The chain was read after the row whose PID it starts from. */
  ghost predicate ServedBy(run: Course, until: nat, chain: seq<Link>, l: Link, k: Knowledge, serving: map<Pid, nat>) {
    ReachesServing(run, l.at + 1, until, chain, l, k, serving)
  }

  /** Why a member of the old cgroup is held as part of the serving generation: it was no agent, and was either a root
      or a helper in the Viewer's group whose parents, read after it, reached a serving process before any agent. */
  ghost predicate Serving(run: Course, from: nat, until: nat, l: Link, k: Knowledge, serving: map<Pid, nat>) {
    && from <= l.at < until && WasRead(run, l) && !HeldLink(k.agents, l)
    && (HeldLink(k.roots, l)
        || (k.viewerGroup == Some(l.stat.group) && exists chain :: ServedBy(run, until, chain, l, k, serving)))
  }

  ghost predicate Captures(run: Course, from: nat, until: nat, captured: map<Pid, nat>, k: Knowledge,
                           serving: map<Pid, nat>) {
    forall pid :: pid in captured ==> Captured(run, from, until, pid, captured[pid], k, serving)
  }

  ghost predicate Captured(run: Course, from: nat, until: nat, pid: Pid, start: nat, k: Knowledge,
                           serving: map<Pid, nat>) {
    exists l: Link :: l.pid == pid && l.stat.start == start && Serving(run, from, until, l, k, serving)
  }

  lemma CapturedWider(run: Course, from: nat, until: nat, low: nat, high: nat, pid: Pid, start: nat, k: Knowledge,
                      serving: map<Pid, nat>)
    requires Captured(run, from, until, pid, start, k, serving) && low <= from && until <= high
    ensures Captured(run, low, high, pid, start, k, serving)
  {
    var l: Link :| l.pid == pid && l.stat.start == start && Serving(run, from, until, l, k, serving);
    if !HeldLink(k.roots, l) {
      var chain :| ServedBy(run, until, chain, l, k, serving);
      assert ServedBy(run, high, chain, l, k, serving);
    }
    assert Serving(run, low, high, l, k, serving);
  }

  /** Throughout, the process is no agent, is in the Viewer's group, and its parents lead to a serving process with no
      agent before it. */
  ghost predicate Helps(run: Course, from: nat, until: nat, trail: Trail, pid: Pid, start: nat, k: Knowledge,
                        serving: map<Pid, nat>) {
    && Walkable(trail) && trail[0] == (pid, start) && Steady(run, from, until, trail)
    && Held(serving, trail[|trail| - 1].0, trail[|trail| - 1].1) && !Held(k.agents, pid, start)
    && (forall j :: 0 <= j < |trail| - 1 ==> !Held(k.agents, trail[j].0, trail[j].1))
    && forall i :: from <= i < until ==> pid in run(i) && k.viewerGroup == Some(run(i)[pid].group)
  }

  /** Throughout, the process is there, and a root or such a helper. */
  ghost predicate Belongs(run: Course, from: nat, until: nat, pid: Pid, start: nat, k: Knowledge,
                          serving: map<Pid, nat>) {
    && Stays(run, from, until, pid, start)
    && (IsRoot(k, pid, start) || exists trail :: Helps(run, from, until, trail, pid, start, k, serving))
  }

  lemma BelongsNarrower(run: Course, from: nat, until: nat, low: nat, high: nat, pid: Pid, start: nat, k: Knowledge,
                        serving: map<Pid, nat>)
    requires Belongs(run, from, until, pid, start, k, serving) && from <= low && high <= until
    ensures Belongs(run, low, high, pid, start, k, serving)
  {
    if !IsRoot(k, pid, start) {
      var trail :| Helps(run, from, until, trail, pid, start, k, serving);
      assert Helps(run, low, high, trail, pid, start, k, serving);
    }
  }

  lemma HelpsLed(run: Course, from: nat, until: nat, trail: Trail, pid: Pid, start: nat, k: Knowledge,
                 serving: map<Pid, nat>)
    requires Helps(run, from, until, trail, pid, start, k, serving)
    ensures Led(run, from, until, trail, pid, Owners(k, serving))
  {
  }

  /** Whether one member of the old cgroup is of the serving generation, and its start identity. */
  method MemberOf(kernel: Kernel, pid: Pid, k: Knowledge, serving: map<Pid, nat>) returns (start: Option<nat>)
    modifies kernel`now
    ensures old(kernel.now) < kernel.now
    ensures start.Some? ==> Captured(kernel.run, old(kernel.now), kernel.now, pid, start.value, k, serving)
    ensures forall s: nat ::
      Belongs(kernel.run, old(kernel.now), kernel.now, pid, s, k, serving) ==> start == Some(s)
  {
    ghost var n := kernel.now;
    var stat := kernel.ReadStat(pid);
    start := None;
    if stat.Some? && !Held(k.agents, pid, stat.value.start) {
      ghost var l := Link(pid, stat.value, n);
      if Held(k.roots, pid, stat.value.start) {
        assert Serving(kernel.run, n, kernel.now, l, k, serving);
        start := Some(stat.value.start);
      } else if k.viewerGroup == Some(stat.value.group) {
        start := HelperOf(kernel, pid, stat.value, k, serving, n);
      }
    }
    forall s: nat | Belongs(kernel.run, n, kernel.now, pid, s, k, serving) ensures start == Some(s) {
      assert Is(kernel.run(n), pid, s);
      if !IsRoot(k, pid, s) {
        var trail :| Helps(kernel.run, n, kernel.now, trail, pid, s, k, serving);
        assert Helps(kernel.run, n + 1, kernel.now, trail, pid, s, k, serving);
      }
    }
  }

  /** A process of the Viewer's group: whether its parents reach a serving process before any agent. */
  method HelperOf(kernel: Kernel, pid: Pid, stat: Proc, k: Knowledge, serving: map<Pid, nat>, ghost n: nat)
    returns (start: Option<nat>)
    requires WasRead(kernel.run, Link(pid, stat, n)) && kernel.now == n + 1
    requires !Held(k.agents, pid, stat.start) && k.viewerGroup == Some(stat.group)
    modifies kernel`now
    ensures old(kernel.now) <= kernel.now && (start.Some? ==> start.value == stat.start)
    ensures start.Some? ==> Captured(kernel.run, n, kernel.now, pid, stat.start, k, serving)
    ensures forall trail | Helps(kernel.run, old(kernel.now), kernel.now, trail, pid, stat.start, k, serving) ::
      start == Some(stat.start)
  {
    ghost var from, l := kernel.now, Link(pid, stat, n);
    var owner, chain := OwnerOf(kernel, pid, Owners(k, serving));
    start := None;
    if owner == Some(Current) {
      assert ServedBy(kernel.run, kernel.now, chain, l, k, serving);
      assert Serving(kernel.run, n, kernel.now, l, k, serving);
      start := Some(stat.start);
    }
    forall trail | Helps(kernel.run, from, kernel.now, trail, pid, stat.start, k, serving)
      ensures owner == Some(Current)
    {
      HelpsLed(kernel.run, from, kernel.now, trail, pid, stat.start, k, serving);
    }
  }

  /** Every root and every helper that sits in a listed directory throughout is captured. */
  ghost predicate MembersCaptured(run: Course, from: nat, until: nat, walk: Option<seq<string>>, k: Knowledge,
                                  serving: map<Pid, nat>, captured: map<Pid, nat>) {
    walk.Some? ==> forall pid: Pid, start: nat, dir |
      dir in walk.value && Belongs(run, from, until, pid, start, k, serving) ::
      Sits(run, from, until, pid, start, dir) ==> Held(captured, pid, start)
  }

  lemma MembersCapturedLater(run: Course, from: nat, until: nat, high: nat, walk: Option<seq<string>>, k: Knowledge,
                             serving: map<Pid, nat>, captured: map<Pid, nat>)
    requires MembersCaptured(run, from, until, walk, k, serving, captured) && until <= high
    ensures MembersCaptured(run, from, high, walk, k, serving, captured)
  {
    forall pid: Pid, start: nat, dir | walk.Some? && dir in walk.value
      && Belongs(run, from, high, pid, start, k, serving) && Sits(run, from, high, pid, start, dir)
      ensures Held(captured, pid, start)
    {
      BelongsNarrower(run, from, high, from, until, pid, start, k, serving);
      assert Sits(run, from, until, pid, start, dir);
    }
  }

  /** The serving generation, read just before the stop from the old cgroup's members. No root and no helper that sits
      there throughout is missed. A cgroup that cannot be read whole is refused. */
  method Generation(kernel: Kernel, walk: Option<seq<string>>, k: Knowledge, serving: map<Pid, nat>)
    returns (captured: Option<map<Pid, nat>>)
    modifies kernel`now
    ensures old(kernel.now) <= kernel.now && (captured.Some? <==> walk.Some?)
    ensures captured.Some? ==> Captures(kernel.run, old(kernel.now), kernel.now, captured.value, k, serving)
    ensures captured.Some? ==>
      MembersCaptured(kernel.run, old(kernel.now), kernel.now, walk, k, serving, captured.value)
  {
    if walk.None? { return None; }
    ghost var n := kernel.now;
    var pids := kernel.Members(walk.value);
    ghost var read := kernel.now;
    var found := CaptureAll(kernel, pids, k, serving, n);
    forall pid: Pid, start: nat, dir | dir in walk.value && Belongs(kernel.run, n, kernel.now, pid, start, k, serving)
      && Sits(kernel.run, n, kernel.now, pid, start, dir) ensures Held(found, pid, start)
    {
      assert Sits(kernel.run, n, read, pid, start, dir);
    }
    captured := Some(found);
  }

  method CaptureAll(kernel: Kernel, pids: set<Pid>, k: Knowledge, serving: map<Pid, nat>, ghost n: nat)
    returns (found: map<Pid, nat>)
    requires n <= kernel.now
    modifies kernel`now
    ensures old(kernel.now) <= kernel.now && Captures(kernel.run, n, kernel.now, found, k, serving)
    ensures MembersHeld(kernel.run, n, kernel.now, pids, k, serving, found)
  {
    found := map[];
    var rest := pids;
    while rest != {}
      invariant old(kernel.now) <= kernel.now && rest <= pids && found.Keys <= pids - rest
      invariant Captures(kernel.run, n, kernel.now, found, k, serving)
      invariant MembersHeld(kernel.run, n, kernel.now, pids - rest, k, serving, found)
    {
      var pid :| pid in rest;
      ghost var before, was := kernel.now, found;
      var start := MemberOf(kernel, pid, k, serving);
      forall p | p in was ensures Captured(kernel.run, n, kernel.now, p, was[p], k, serving) {
        CapturedWider(kernel.run, n, before, n, kernel.now, p, was[p], k, serving);
      }
      if start.Some? {
        CapturedWider(kernel.run, before, kernel.now, n, kernel.now, pid, start.value, k, serving);
        found := found[pid := start.value];
      }
      MembersHeldOn(kernel.run, n, before, kernel.now, pids - rest, k, serving, was, pid, start);
      rest := rest - {pid};
      assert pids - rest == pids - (rest + {pid}) + {pid};
    }
  }

  /** Nobody among these who has belonged to the generation since `n` is missed. */
  ghost predicate MembersHeld(run: Course, n: nat, until: nat, pids: set<Pid>, k: Knowledge, serving: map<Pid, nat>,
                              found: map<Pid, nat>) {
    forall pid: Pid, start: nat | pid in pids ::
      Belongs(run, n, until, pid, start, k, serving) ==> Held(found, pid, start)
  }

  lemma MembersHeldOn(run: Course, n: nat, mid: nat, until: nat, pids: set<Pid>, k: Knowledge, serving: map<Pid, nat>,
                      was: map<Pid, nat>, pid: Pid, start: Option<nat>)
    requires n <= mid <= until && pid !in pids && MembersHeld(run, n, mid, pids, k, serving, was)
    requires forall s: nat :: Belongs(run, mid, until, pid, s, k, serving) ==> start == Some(s)
    ensures MembersHeld(run, n, until, pids + {pid}, k, serving, if start.Some? then was[pid := start.value] else was)
  {
    forall p: Pid, s: nat | p in pids + {pid} && Belongs(run, n, until, p, s, k, serving)
      ensures Held(if start.Some? then was[pid := start.value] else was, p, s)
    {
      BelongsNarrower(run, n, until, n, mid, p, s, k, serving);
      BelongsNarrower(run, n, until, mid, until, p, s, k, serving);
    }
  }

  /** A row of the serving generation: no agent, and either a root or, as the same incarnation a moment before, at the
      head of a chain that reached a serving process before any agent. */
  ghost predicate OfGeneration(run: Course, from: nat, l: Link, k: Knowledge, serving: map<Pid, nat>) {
    && WasRead(run, l) && !HeldLink(k.agents, l)
    && (HeldLink(k.roots, l) || exists chain :: ServedBefore(run, from, chain, l, k, serving))
  }

  ghost predicate ServedBefore(run: Course, from: nat, chain: seq<Link>, l: Link, k: Knowledge,
                               serving: map<Pid, nat>) {
    ReachesServing(run, from, l.at, chain, l, k, serving) && chain[0].stat.start == l.stat.start
  }

  /** Why a process may be retired: its parents, none of them an agent, led to the serving generation. */
  ghost predicate Leftover(run: Course, from: nat, until: nat, pid: Pid, start: nat, k: Knowledge,
                           serving: map<Pid, nat>) {
    exists chain: seq<Link> :: LeftoverBy(run, from, until, chain, pid, start, k, serving)
  }

  ghost predicate LeftoverBy(run: Course, from: nat, until: nat, chain: seq<Link>, pid: Pid, start: nat, k: Knowledge,
                             serving: map<Pid, nat>) {
    && chain != [] && Walked(run, from, until, chain)
    && chain[0].pid == pid && chain[0].stat.start == start && Admitted(k, pid, chain[0].stat)
    && (forall i :: 0 <= i < |chain| ==> !HeldLink(k.agents, chain[i]))
    && OfGeneration(run, from, chain[|chain| - 1], k, serving)
  }

  /** A survivor proven from the captured generation is a leftover of it, although its parents and the captured
      member's were read at different times: an identity seen before and after was there in between. */
  lemma ProvenIsLeftover(run: Course, from: nat, mid: nat, until: nat, s: Survivor, k: Knowledge,
                         captured: map<Pid, nat>, serving: map<Pid, nat>)
    requires NoReturn(run) && from <= mid && ProvenSurvivor(run, mid, until, s, k, captured)
    requires Captures(run, from, mid, captured, k, serving)
    ensures Leftover(run, from, until, s.pid, s.start.value, k, serving)
  {
    var chain, i :| ConfirmedAt(run, mid, until, chain, i, s.pid, s.start.value, k, captured);
    CapturedIsOfGeneration(run, from, mid, chain[|chain| - 1], k, captured, serving);
    EvidenceIsLeftover(run, from, mid, until, chain, s.pid, s.start.value, k, captured, serving);
  }

  lemma EvidenceIsLeftover(run: Course, from: nat, mid: nat, until: nat, chain: seq<Link>, pid: Pid, start: nat,
                           k: Knowledge, captured: map<Pid, nat>, serving: map<Pid, nat>)
    requires Evidence(run, mid, until, chain, pid, start, k, captured) && from <= mid
    requires OfGeneration(run, from, chain[|chain| - 1], k, serving)
    ensures LeftoverBy(run, from, until, chain, pid, start, k, serving)
  {
    forall i | 0 <= i < |chain| ensures !HeldLink(k.agents, chain[i]) {
      if i < |chain| - 1 { assert chain[..|chain| - 1][i] == chain[i]; }
    }
  }

  lemma CapturedIsOfGeneration(run: Course, from: nat, mid: nat, last: Link, k: Knowledge, captured: map<Pid, nat>,
                               serving: map<Pid, nat>)
    requires NoReturn(run) && from <= mid <= last.at && WasRead(run, last) && HeldLink(captured, last)
    requires Captures(run, from, mid, captured, k, serving)
    ensures OfGeneration(run, from, last, k, serving)
  {
    assert Captured(run, from, mid, last.pid, captured[last.pid], k, serving);
    var l: Link :| l.pid == last.pid && l.stat.start == last.stat.start && Serving(run, from, mid, l, k, serving);
    if !HeldLink(k.roots, l) {
      var chain: seq<Link> :| ServedBy(run, mid, chain, l, k, serving);
      StillBound(run, l.pid, l.stat.start, l.at, chain[0].at, chain[0].at, last.at);
      assert ServedBefore(run, from, chain, last, k, serving);
    }
  }

  /** A signal reached a leftover of the serving generation in order. */
  ghost predicate Retired(run: Course, from: nat, until: nat, m: Sent, k: Knowledge, group: string,
                          serving: map<Pid, nat>) {
    && InOrder(run, from, until, m, Survivor(m.pid, Some(m.start), true), k, group)
    && Leftover(run, from, m.stat.at, m.pid, m.start, k, serving)
  }

  lemma LeftoverWider(run: Course, from: nat, until: nat, high: nat, pid: Pid, start: nat, k: Knowledge,
                      serving: map<Pid, nat>)
    requires Leftover(run, from, until, pid, start, k, serving) && until <= high
    ensures Leftover(run, from, high, pid, start, k, serving)
  {
    var chain: seq<Link> :| LeftoverBy(run, from, until, chain, pid, start, k, serving);
    assert LeftoverBy(run, from, high, chain, pid, start, k, serving);
  }

  ghost predicate EachRetired(run: Course, from: nat, until: nat, batch: seq<Sent>, k: Knowledge, group: string,
                              serving: map<Pid, nat>) {
    forall i :: 0 <= i < |batch| ==> Retired(run, from, until, batch[i], k, group, serving)
  }

  lemma AllRetired(run: Course, from: nat, mid: nat, late: nat, until: nat, batch: seq<Sent>, found: seq<Survivor>,
                   group: string, k: Knowledge, captured: map<Pid, nat>, serving: map<Pid, nat>)
    requires NoReturn(run) && from <= mid <= late && Captures(run, from, mid, captured, k, serving)
    requires Surveyed(run, mid, late, found, group, k, captured) && forall s :: s in found ==> s.proven
    requires AllInOrder(run, late, until, batch, found, k, group)
    ensures EachRetired(run, from, until, batch, k, group, serving)
  {
    forall i | 0 <= i < |batch| ensures Retired(run, from, until, batch[i], k, group, serving) {
      assert OneInOrder(run, late, until, batch[i], found, k, group);
      var e :| e in found && InOrder(run, late, until, batch[i], e, k, group);
      ProvenIsLeftover(run, from, mid, late, e, k, captured, serving);
      LeftoverWider(run, from, late, batch[i].stat.at, e.pid, e.start.value, k, serving);
    }
  }

  /** Captures the generation, lets the stop pass, reads the survivors and retires them when each one is proven.
      Every signal it sends reached a leftover of the serving generation, in order; nobody who sat in a listed
      directory is missed; and when each survivor is proven, each that is steadfast is terminated and killed. */
  method RetireGeneration(kernel: Kernel, group: string, before: Option<seq<string>>, after: Option<seq<string>>,
                          k: Knowledge, serving: map<Pid, nat>, polls: nat)
    returns (found: Option<seq<Survivor>>, signalled: seq<(Survivor, nat)>, ghost capture: map<Pid, nat>)
    requires NoReturn(kernel.run) && (after.Some? ==> forall dir :: dir in after.value ==> Within(dir, group))
    modifies kernel`now, kernel`sent
    ensures old(kernel.now) <= kernel.now && old(kernel.sent) <= kernel.sent
    ensures Names(signalled, kernel.sent[|old(kernel.sent)|..])
    ensures signalled != [] ==> found.Some? && forall s :: s in found.value ==> s.proven
    ensures EachRetired(kernel.run, old(kernel.now), kernel.now, kernel.sent[|old(kernel.sent)|..], k, group, serving)
    ensures MembersCaptured(kernel.run, old(kernel.now), kernel.now, before, k, serving, capture)
    ensures signalled != [] ==> SpacedSome(kernel.run, old(kernel.now), kernel.now, kernel.sent[|old(kernel.sent)|..],
                                           found.value, group, polls)
    ensures found.None? ==> after.None?
    ensures found.Some? ==> Thorough(kernel.run, old(kernel.now), kernel.now, found.value, after, group, k, capture)
    ensures found.Some? && (forall s :: s in found.value ==> s.proven) ==>
      AllReached(kernel.run, old(kernel.now), kernel.now, found.value, kernel.sent[|old(kernel.sent)|..], k, group)
  {
    signalled := [];
    ghost var from, n := kernel.now, |kernel.sent|;
    var held;
    ghost var mid;
    found, held, mid := CaptureAndSurvey(kernel, group, before, after, k, serving);
    capture := held;
    if found.Some? && found.value != [] && forall s :: s in found.value ==> s.proven {
      ghost var late := kernel.now;
      signalled := RetireFound(kernel, found.value, group, k, held, polls, from, mid, serving);
      ThoroughWider(kernel.run, from, from, late, kernel.now, found.value, after, group, k, held);
      MembersCapturedLater(kernel.run, from, late, kernel.now, before, k, serving, held);
    }
  }

  /** The generation before the stop, and the survivors after it. */
  method CaptureAndSurvey(kernel: Kernel, group: string, before: Option<seq<string>>, after: Option<seq<string>>,
                          k: Knowledge, serving: map<Pid, nat>)
    returns (found: Option<seq<Survivor>>, held: map<Pid, nat>, ghost mid: nat)
    requires after.Some? ==> forall dir :: dir in after.value ==> Within(dir, group)
    modifies kernel`now
    ensures old(kernel.now) <= mid <= kernel.now && Captures(kernel.run, old(kernel.now), mid, held, k, serving)
    ensures MembersCaptured(kernel.run, old(kernel.now), kernel.now, before, k, serving, held)
    ensures found.None? ==> after.None?
    ensures found.Some? ==> DistinctPids(found.value)
    ensures found.Some? ==> Surveyed(kernel.run, mid, kernel.now, found.value, group, k, held)
    ensures found.Some? ==> Thorough(kernel.run, old(kernel.now), kernel.now, found.value, after, group, k, held)
  {
    ghost var from := kernel.now;
    var captured := Generation(kernel, before, k, serving);
    held := if captured.Some? then captured.value else map[];
    mid := kernel.now;
    found := Survivors(kernel, group, after, k, held);
    if found.Some? {
      ThoroughWider(kernel.run, from, mid, kernel.now, kernel.now, found.value, after, group, k, held);
    }
    MembersCapturedLater(kernel.run, from, mid, kernel.now, before, k, serving, held);
  }

  method RetireFound(kernel: Kernel, found: seq<Survivor>, group: string, k: Knowledge, held: map<Pid, nat>, polls: nat,
                     ghost from: nat, ghost mid: nat, ghost serving: map<Pid, nat>)
    returns (signalled: seq<(Survivor, nat)>)
    requires NoReturn(kernel.run) && from <= mid <= kernel.now && DistinctPids(found)
    requires Captures(kernel.run, from, mid, held, k, serving)
    requires Surveyed(kernel.run, mid, kernel.now, found, group, k, held) && forall s :: s in found ==> s.proven
    modifies kernel`now, kernel`sent
    ensures old(kernel.now) <= kernel.now && old(kernel.sent) <= kernel.sent
    ensures Names(signalled, kernel.sent[|old(kernel.sent)|..])
    ensures EachRetired(kernel.run, from, kernel.now, kernel.sent[|old(kernel.sent)|..], k, group, serving)
    ensures SpacedSome(kernel.run, from, kernel.now, kernel.sent[|old(kernel.sent)|..], found, group, polls)
    ensures AllReached(kernel.run, from, kernel.now, found, kernel.sent[|old(kernel.sent)|..], k, group)
  {
    ghost var late, n, terms := kernel.now, |kernel.sent|, 0;
    signalled, terms := Retire(kernel, found, group, k, held, polls);
    AllRetired(kernel.run, from, mid, late, kernel.now, kernel.sent[n..], found, group, k, held, serving);
    ReachedNarrower(kernel.run, from, late, kernel.now, found, kernel.sent[n..], k, group);
  }

  lemma ReachedNarrower(run: Course, from: nat, low: nat, until: nat, proven: seq<Survivor>, batch: seq<Sent>,
                        k: Knowledge, group: string)
    requires AllReached(run, low, until, proven, batch, k, group) && from <= low
    ensures AllReached(run, from, until, proven, batch, k, group)
  {
    forall e | e in proven && Steadfast(run, from, until, e, k, group)
      ensures Signalled(batch, e, TERM) && Signalled(batch, e, KILL)
    {
      SteadfastNarrower(run, from, until, low, until, e, k, group);
    }
  }

  lemma ThoroughWider(run: Course, from: nat, low: nat, high: nat, until: nat, found: seq<Survivor>,
                    walk: Option<seq<string>>, group: string, k: Knowledge, captured: map<Pid, nat>)
    requires from <= low <= high <= until && Thorough(run, low, high, found, walk, group, k, captured)
    ensures Thorough(run, from, until, found, walk, group, k, captured)
  {
    forall pid: Pid, start: nat, dir | ListedBy(walk, dir, group) && Sits(run, from, until, pid, start, dir)
      ensures Reported(found, pid, start)
    {
      assert Sits(run, low, high, pid, start, dir);
    }
    forall pid: Pid, start: nat, dir, trail | ListedBy(walk, dir, group) && Sits(run, from, until, pid, start, dir)
      && Convinces(run, from, until, trail, pid, start, k, captured)
      ensures Survivor(pid, Some(start), true) in found
    {
      assert Sits(run, low, high, pid, start, dir) && Convinces(run, low, high, trail, pid, start, k, captured);
    }
  }
}
