/** One remote check, its outcome, and the bounded local fallback. */
module CloudRun {
  import opened Common
  import opened CloudUpload

  datatype Category = Outage | Limit | Account | Broken

  /** A thrown error: one of the transport's own, or any other. */
  datatype Failure = Hosted(category: Category) | Plain

  datatype Receipt = Receipt(head: string, tree: string, base: string, inputs: string)

  datatype CloudResult = Verdict(receipt: Receipt, code: int) | Unavailable | CloudLimit | AccountLimit | Invalid

  /** A command record; `printed` is the receipt line its output ends in, with the code printed there. */
  datatype Item = Item(turn: string, execution: bool, status: Status, command: string, exit: Option<int>,
                       printed: Option<(Receipt, int)>)

  datatype TurnStatus = Finished(error: Option<Category>) | Ongoing

  datatype Turn = Turn(id: string, status: TurnStatus)

  /** What one call to the service gives back. */
  datatype Reply =
    | Items(items: seq<Item>, next: Option<string>)
    | Turns(turns: seq<Turn>, next: Option<string>)
    | Done(value: Option<string>)
    | Throws(failure: Failure)

  datatype Outcome<T> = Returned(value: T) | Raised(failure: Failure)

  const PAGES := 100
  const RECORDS := 10000
  const STOP_LOOKS := 20

  datatype Call = StartThread | Revert | StartTurn | ListItems | ListTurns | Interrupt

  /** One call to the service and what came back. */
  datatype Exchange = Exchange(call: Call, reply: Reply)

  /** The replies of a log are those the service holds ready, in order, and failures after them. */
  ghost predicate AnsweredFrom(log: seq<Exchange>, replies: seq<Reply>) {
    forall i :: 0 <= i < |log| ==> log[i].reply == ReplyAt(replies, i)
  }

  /** Every call may answer anything, or fail. */
  function ReplyAt(replies: seq<Reply>, i: nat): Reply { if i < |replies| then replies[i] else Throws(Plain) }

  /** The service as one attempt meets it; what was asked and answered is logged. */
  class Rpc {
    const replies: seq<Reply>
    var log: seq<Exchange>

    ghost predicate Valid()
      reads this
    {
      AnsweredFrom(log, replies)
    }

    constructor (replies: seq<Reply>)
      ensures Valid() && this.replies == replies && log == []
    {
      this.replies, log := replies, [];
    }

    method Do(call: Call) returns (r: Reply)
      requires Valid()
      modifies this
      ensures Valid() && log == old(log) + [Exchange(call, r)]
    {
      r := ReplyAt(replies, |log|);
      log := log + [Exchange(call, r)];
    }
  }

  predicate Page(e: Exchange) { e.call == ListItems && e.reply.Items? }

  /** How many records the pages at the end of a log have. */
  function Count(log: seq<Exchange>): nat {
    if log == [] || !Page(log[|log| - 1]) then 0
    else Count(log[..|log| - 1]) + |log[|log| - 1].reply.items|
  }

  /** All records of all pages. */
  function Received(log: seq<Exchange>): seq<Item> {
    if log == [] then []
    else Received(log[..|log| - 1]) + if Page(log[|log| - 1]) then log[|log| - 1].reply.items else []
  }

  /** The records of the pages within the record limit of their walk. */
  function Yielded(log: seq<Exchange>): seq<Item> {
    if log == [] then []
    else
      var last := log[|log| - 1];
      Yielded(log[..|log| - 1]) + if Page(last) && Count(log) <= RECORDS then last.reply.items else []
  }

  lemma LogOn(log: seq<Exchange>, e: Exchange)
    ensures Count(log + [e]) == if Page(e) then Count(log) + |e.reply.items| else 0
    ensures Received(log + [e]) == Received(log) + if Page(e) then e.reply.items else []
    ensures Yielded(log + [e]) == Yielded(log) + if Page(e) && Count(log + [e]) <= RECORDS then e.reply.items else []
  {
    assert (log + [e])[..|log|] == log;
  }

  /** A terminal record of exactly this command in exactly this turn. */
  predicate Decisive(i: Item, turn: string, command: string) {
    i.turn == turn && i.execution && Terminal(i.status) && IsExactCommand(i.command, command)
  }

  /** The printed code must be the command's own exit code, and a failed command must not claim success. */
  predicate Sound(i: Item) {
    && !i.status.Declined? && !(i.status.Failed? && i.exit == Some(0))
    && i.printed.Some? && i.exit == Some(i.printed.value.1)
  }

  function Judgement(i: Item): CloudResult {
    if Sound(i) then Verdict(i.printed.value.0, i.printed.value.1) else Invalid
  }

  /** The first decisive record. */
  function First(items: seq<Item>, turn: string, command: string): (r: Option<Item>)
    ensures r.Some? ==> r.value in items && Decisive(r.value, turn, command)
    ensures r.None? <==> forall i :: i in items ==> !Decisive(i, turn, command)
  {
    if items == [] then None
    else if Decisive(items[0], turn, command) then Some(items[0])
    else First(items[1..], turn, command)
  }

  lemma {:induction false} FirstAppend(a: seq<Item>, b: seq<Item>, turn: string, command: string)
    ensures First(a + b, turn, command) ==
      if First(a, turn, command).Some? then First(a, turn, command) else First(b, turn, command)
  {
    if a == [] {
      assert a + b == b;
    } else {
      assert (a + b)[0] == a[0] && (a + b)[1..] == a[1..] + b;
      FirstAppend(a[1..], b, turn, command);
    }
  }

  function Judged(i: Option<Item>): Option<CloudResult> {
    if i.Some? then Some(Judgement(i.value)) else None
  }

  /** What the log's records decide about the command, if anything. */
  function Decided(log: seq<Exchange>, turn: string, command: string): Option<CloudResult> {
    Judged(First(Yielded(log), turn, command))
  }

  /** A decisive record was received, on a page past the record limit. */
  predicate Hidden(log: seq<Exchange>, turn: string, command: string) {
    Decided(log, turn, command).None? && First(Received(log), turn, command).Some?
  }

  lemma DecidedOn(log: seq<Exchange>, e: Exchange, turn: string, command: string)
    requires Decided(log, turn, command).None? && !Hidden(log, turn, command)
    ensures !Page(e) ==> Decided(log + [e], turn, command).None? && !Hidden(log + [e], turn, command)
    ensures Page(e) ==>
      if Count(log) + |e.reply.items| <= RECORDS then
        !Hidden(log + [e], turn, command)
        && Decided(log + [e], turn, command) == Judged(First(e.reply.items, turn, command))
      else Decided(log + [e], turn, command).None?
  {
    LogOn(log, e);
    var more := if Page(e) then e.reply.items else [];
    FirstAppend(Received(log), more, turn, command);
    FirstAppend(Yielded(log), more, turn, command);
    assert Yielded(log) + [] == Yielded(log);
  }

  /** Where the page after this one begins. */
  function NextOf(e: Exchange): Option<string> {
    match e.reply
    case Items(_, next) => next
    case Turns(_, next) => next
    case _ => None
  }

  /** An answer that is no page of what was asked for. */
  predicate Misanswered(e: Exchange) {
    !e.reply.Throws? && ((e.call == ListItems && !e.reply.Items?) || (e.call == ListTurns && !e.reply.Turns?))
  }

  /** Why a walk over pages gives up at its last page: it is no page, there are too many records, its cursor came
      before, or one more page would be too many. */
  ghost predicate Breaks(log: seq<Exchange>, lo: nat, hi: nat) {
    && lo < hi <= |log| && (forall i :: lo <= i < hi ==> log[i].call == log[hi - 1].call)
    && (Misanswered(log[hi - 1]) || Count(log[..hi]) > RECORDS
        || (NextOf(log[hi - 1]).Some? && hi - lo == PAGES)
        || (NextOf(log[hi - 1]).Some? && exists i :: lo <= i < hi - 1 && NextOf(log[i]) == NextOf(log[hi - 1])))
  }

  ghost predicate Garbled(log: seq<Exchange>) { exists lo: nat, hi: nat :: Breaks(log, lo, hi) }

  lemma GarbledLater(before: seq<Exchange>, after: seq<Exchange>)
    requires Garbled(before) && before <= after
    ensures Garbled(after)
  {
    var lo: nat, hi: nat :| Breaks(before, lo, hi);
    assert after[..hi] == before[..hi];
    assert Breaks(after, lo, hi);
  }

  /** A failure of the transport was some call's answer; a plain one may also be a walk that gave up. */
  ghost predicate Threw(log: seq<Exchange>, f: Failure) {
    (exists e :: e in log && e.reply == Throws(f)) || (f == Plain && Garbled(log))
  }

  /** A page whose cursor no page of its walk had before. */
  ghost predicate Fresh(log: seq<Exchange>, lo: nat, i: nat)
    requires i < |log|
  {
    NextOf(log[i]).Some? && forall j :: lo <= j < i ==> NextOf(log[j]) != NextOf(log[i])
  }

  /** A walk goes on only from such a page. */
  ghost predicate WentOn(log: seq<Exchange>, lo: nat, hi: nat)
    requires hi <= |log|
  {
    forall i :: lo <= i < hi ==> Fresh(log, lo, i)
  }

  /** What a walk raises is what its last call threw, or it gives up at that page. */
  ghost predicate Raises(log: seq<Exchange>, lo: nat, f: Failure) {
    log != [] && var last := log[|log| - 1].reply;
      if last.Throws? then f == last.failure else f == Plain && Breaks(log, lo, |log|)
  }

  lemma RaisesThrew(log: seq<Exchange>, lo: nat, f: Failure)
    requires Raises(log, lo, f)
    ensures Threw(log, f)
  {
    assert log[|log| - 1] in log;
  }

  /** The cursors met since `lo`, each on one page. */
  ghost predicate Met(log: seq<Exchange>, lo: nat, seen: set<string>) {
    && lo <= |log| && WentOn(log, lo, |log|)
    && (forall c :: c in seen ==> exists i :: lo <= i < |log| && NextOf(log[i]) == Some(c))
    && forall i :: lo <= i < |log| ==> NextOf(log[i]).Some? && NextOf(log[i]).value in seen
  }

  lemma MetOn(log: seq<Exchange>, lo: nat, seen: set<string>, e: Exchange)
    requires Met(log, lo, seen) && NextOf(e).Some? && NextOf(e).value !in seen
    ensures Met(log + [e], lo, seen + {NextOf(e).value})
  {
    var all := log + [e];
    forall i | lo <= i < |all| ensures Fresh(all, lo, i) {
      assert i < |log| ==> Fresh(log, lo, i);
    }
    forall c | c in seen + {NextOf(e).value} ensures exists i :: lo <= i < |all| && NextOf(all[i]) == Some(c) {
      if c in seen {
        var i :| lo <= i < |log| && NextOf(log[i]) == Some(c);
        assert all[i] == log[i];
      } else {
        assert all[|log|] == e;
      }
    }
  }

  /** What is known of the pages before stays known with one more. */
  lemma WentOnStays(log: seq<Exchange>, lo: nat, e: Exchange)
    requires lo <= |log| && WentOn(log, lo, |log|)
    ensures WentOn(log + [e], lo, |log|)
  {
    forall i | lo <= i < |log| ensures Fresh(log + [e], lo, i) {
      assert Fresh(log, lo, i);
    }
  }

  /** One more page that a walk gives up at. */
  lemma GivesUp(log: seq<Exchange>, lo: nat, seen: set<string>, e: Exchange)
    requires Met(log, lo, seen) && !e.reply.Throws? && (forall i :: lo <= i < |log| ==> log[i].call == e.call)
    requires Misanswered(e) || Count(log + [e]) > RECORDS
      || (NextOf(e).Some? && (|log| + 1 - lo == PAGES || NextOf(e).value in seen))
    ensures Raises(log + [e], lo, Plain)
  {
    var all := log + [e];
    assert all[..|all|] == all && all[|log|] == e;
    if NextOf(e).Some? && NextOf(e).value in seen {
      var i :| lo <= i < |log| && NextOf(log[i]) == Some(NextOf(e).value);
      assert all[i] == log[i];
    }
  }

  method ReadPage(rpc: Rpc, ghost turn: string, ghost command: string) returns (reply: Reply)
    requires Decided(rpc.log, turn, command).None? && !Hidden(rpc.log, turn, command)
    requires rpc.Valid()
    modifies rpc
    ensures rpc.Valid()
    ensures rpc.log == old(rpc.log) + [Exchange(ListItems, reply)]
    ensures Count(rpc.log) == if reply.Items? then Count(old(rpc.log)) + |reply.items| else 0
    ensures !reply.Items? || Count(rpc.log) > RECORDS ==> Decided(rpc.log, turn, command).None?
    ensures !reply.Items? || Count(rpc.log) <= RECORDS ==> !Hidden(rpc.log, turn, command)
    ensures reply.Items? && Count(rpc.log) <= RECORDS ==>
      Decided(rpc.log, turn, command) == Judged(First(reply.items, turn, command))
  {
    reply := rpc.Do(ListItems);
    LogOn(old(rpc.log), Exchange(ListItems, reply));
    DecidedOn(old(rpc.log), Exchange(ListItems, reply), turn, command);
  }

  /** Calls of one kind, of which none closed the walk. */
  ghost predicate Unclosed(before: seq<Exchange>, after: seq<Exchange>, call: Call, turn: string) {
    before <= after
    && forall i :: |before| <= i < |after| ==> after[i].call == call && !Closes(after[i], call, turn)
  }

  lemma ListedOn(before: seq<Exchange>, mid: seq<Exchange>, e: Exchange, turn: string)
    requires Unclosed(before, mid, e.call, turn) && (e.call == ListItems || e.call == ListTurns)
    ensures Listed(before, mid + [e], e.call)
    ensures if Closes(e, e.call, turn) then OneLook(before, mid + [e], e.call, turn)
            else Unclosed(before, mid + [e], e.call, turn)
  {
    var after := mid + [e];
    assert forall i :: |before| <= i < |after| - 1 ==> after[i] == mid[i];
    if Closes(e, e.call, turn) { LooksOnce(before, after, e.call, turn); }
  }

  /** One more page of a walk, and whether the walk gives up there. */
  lemma PageOn(start: seq<Exchange>, before: seq<Exchange>, e: Exchange, turn: string, seen: set<string>)
    requires Unclosed(start, before, e.call, turn) && (e.call == ListItems || e.call == ListTurns)
    requires Met(before, |start|, seen)
    ensures Listed(start, before + [e], e.call) && WentOn(before + [e], |start|, |before|)
    ensures if Closes(e, e.call, turn) then OneLook(start, before + [e], e.call, turn)
            else Unclosed(start, before + [e], e.call, turn)
    ensures e.reply.Throws? ==> Raises(before + [e], |start|, e.reply.failure) && Threw(before + [e], e.reply.failure)
    ensures !e.reply.Throws? && (Misanswered(e) || Count(before + [e]) > RECORDS
        || (NextOf(e).Some? && (|before| + 1 - |start| == PAGES || NextOf(e).value in seen)))
      ==> (Raises(before + [e], |start|, Plain) && Threw(before + [e], Plain))
  {
    ListedOn(start, before, e, turn);
    WentOnStays(before, |start|, e);
    if e.reply.Throws? {
      RaisesThrew(before + [e], |start|, e.reply.failure);
    } else if Misanswered(e) || Count(before + [e]) > RECORDS
      || (NextOf(e).Some? && (|before| + 1 - |start| == PAGES || NextOf(e).value in seen)) {
      GivesUp(before, |start|, seen, e);
      RaisesThrew(before + [e], |start|, Plain);
    }
  }

  /** Walks the command records page by page and stops at the first decisive one. */
  method CommandVerdict(rpc: Rpc, turn: string, command: string) returns (o: Outcome<Option<CloudResult>>)
    requires Count(rpc.log) == 0 && Decided(rpc.log, turn, command).None? && !Hidden(rpc.log, turn, command)
    requires rpc.Valid()
    modifies rpc
    ensures rpc.Valid()
    ensures Listed(old(rpc.log), rpc.log, ListItems) && |rpc.log| <= |old(rpc.log)| + PAGES
    ensures Decided(rpc.log, turn, command) == if o.Returned? then o.value else None
    ensures Hidden(rpc.log, turn, command) ==> o == Raised(Plain)
    ensures o == Returned(None) ==> Page(rpc.log[|rpc.log| - 1]) && rpc.log[|rpc.log| - 1].reply.next.None?
    ensures o == Returned(None) ==> OneLook(old(rpc.log), rpc.log, ListItems, turn)
    ensures WentOn(rpc.log, |old(rpc.log)|, |rpc.log| - 1)
    ensures if o.Raised? then Raises(rpc.log, |old(rpc.log)|, o.failure) else !rpc.log[|rpc.log| - 1].reply.Throws?
    ensures o.Raised? ==> Threw(rpc.log, o.failure)
  {
    var seen: set<string>, count := {}, 0;
    for page := 0 to PAGES
      invariant rpc.Valid()
      invariant count == Count(rpc.log) <= RECORDS && |rpc.log| == |old(rpc.log)| + page
      invariant Unclosed(old(rpc.log), rpc.log, ListItems, turn) && (page > 0 ==> old(rpc.log) < rpc.log)
      invariant Decided(rpc.log, turn, command).None? && !Hidden(rpc.log, turn, command)
      invariant Met(rpc.log, |old(rpc.log)|, seen)
      invariant page == PAGES ==> Raises(rpc.log, |old(rpc.log)|, Plain) && Threw(rpc.log, Plain)
    {
      ghost var before, e := rpc.log, Exchange(ListItems, Throws(Plain));
      var reply := ReadPage(rpc, turn, command);
      e := Exchange(ListItems, reply);
      PageOn(old(rpc.log), before, e, turn, seen);
      if reply.Throws? { return Raised(reply.failure); }
      if !reply.Items? { return Raised(Plain); }
      count := count + |reply.items|;
      if count > RECORDS { return Raised(Plain); }
      var first := FindDecisive(reply.items, turn, command);
      if first.Some? { return Returned(Some(Judgement(first.value))); }
      if reply.next.None? { return Returned(None); }
      if reply.next.value in seen { return Raised(Plain); }
      MetOn(before, |old(rpc.log)|, seen, e);
      seen := seen + {reply.next.value};
    }
    o := Raised(Plain);
  }

  /** Only calls of one kind were made, one at least. */
  ghost predicate Listed(before: seq<Exchange>, after: seq<Exchange>, call: Call) {
    before < after && forall i :: |before| <= i < |after| ==> after[i].call == call
  }

  /** The records of a page are looked at one by one. */
  method FindDecisive(items: seq<Item>, turn: string, command: string) returns (r: Option<Item>)
    ensures r == First(items, turn, command)
  {
    for k := 0 to |items|
      invariant First(items[k..], turn, command) == First(items, turn, command)
    {
      if Decisive(items[k], turn, command) { return Some(items[k]); }
      assert items[k..][1..] == items[k + 1..];
    }
    r := None;
  }

  /** The first turn of a page with this id. */
  function TurnOf(turns: seq<Turn>, id: string): (r: Option<Turn>)
    ensures r.Some? ==> r.value in turns && r.value.id == id
    ensures r.None? <==> forall t :: t in turns ==> t.id != id
  {
    if turns == [] then None else if turns[0].id == id then Some(turns[0]) else TurnOf(turns[1..], id)
  }

  method FindTurn(turns: seq<Turn>, id: string) returns (r: Option<Turn>)
    ensures r == TurnOf(turns, id)
  {
    for k := 0 to |turns|
      invariant TurnOf(turns[k..], id) == TurnOf(turns, id)
    {
      if turns[k].id == id { return Some(turns[k]); }
      assert turns[k..][1..] == turns[k + 1..];
    }
    r := None;
  }

  /** A page of turns that lists this one. */
  predicate Lists(e: Exchange, id: string) {
    e.call == ListTurns && e.reply.Turns? && TurnOf(e.reply.turns, id).Some?
  }

  /** The end of a walk that went through to it: the last page, or the page that lists the turn. */
  predicate Closes(e: Exchange, call: Call, turn: string) {
    e.call == call &&
    match call
    case ListItems => e.reply.Items? && e.reply.next.None?
    case ListTurns => Lists(e, turn) || (e.reply.Turns? && e.reply.next.None?)
    case _ => false
  }

  /** How often the records, or the turns, were looked through. */
  function Looks(log: seq<Exchange>, call: Call, turn: string): nat {
    if log == [] then 0
    else Looks(log[..|log| - 1], call, turn) + if Closes(log[|log| - 1], call, turn) then 1 else 0
  }

  lemma {:induction false} LooksSame(before: seq<Exchange>, after: seq<Exchange>, call: Call, turn: string)
    requires before <= after && forall i :: |before| <= i < |after| ==> !Closes(after[i], call, turn)
    ensures Looks(after, call, turn) == Looks(before, call, turn)
    decreases |after|
  {
    if |before| < |after| {
      LooksSame(before, after[..|after| - 1], call, turn);
    } else {
      assert before == after;
    }
  }

  /** One walk more, closed by its last page. */
  lemma LooksOnce(before: seq<Exchange>, after: seq<Exchange>, call: Call, turn: string)
    requires call == ListItems || call == ListTurns
    requires Listed(before, after, call) && Closes(after[|after| - 1], call, turn)
    requires forall i :: |before| <= i < |after| - 1 ==> !Closes(after[i], call, turn)
    ensures OneLook(before, after, call, turn)
  {
    LooksSame(before, after[..|after| - 1], call, turn);
    LooksSame(before, after, if call == ListItems then ListTurns else ListItems, turn);
  }

  /** The records, or the turns, were looked through once more. */
  ghost predicate OneLook(before: seq<Exchange>, after: seq<Exchange>, call: Call, turn: string) {
    && Looks(after, ListItems, turn) == Looks(before, ListItems, turn) + (if call == ListItems then 1 else 0)
    && Looks(after, ListTurns, turn) == Looks(before, ListTurns, turn) + (if call == ListTurns then 1 else 0)
  }

  /** Walks the turns page by page: a turn that is listed is found, as it was first listed, and nothing is asked
      after it; when none is found without an error, the last page has been seen. */
  method ReadTurn(rpc: Rpc, id: string) returns (o: Outcome<Option<Turn>>)
    requires rpc.Valid()
    modifies rpc
    ensures rpc.Valid()
    ensures Listed(old(rpc.log), rpc.log, ListTurns) && |rpc.log| <= |old(rpc.log)| + PAGES
    ensures forall i :: |old(rpc.log)| <= i < |rpc.log| && Lists(rpc.log[i], id) ==>
      i == |rpc.log| - 1 && o == Returned(TurnOf(rpc.log[i].reply.turns, id))
    ensures o.Returned? && o.value.Some? ==> Lists(rpc.log[|rpc.log| - 1], id)
    ensures o == Returned(None) ==>
      rpc.log[|rpc.log| - 1].reply.Turns? && rpc.log[|rpc.log| - 1].reply.next.None?
    ensures o.Returned? ==> OneLook(old(rpc.log), rpc.log, ListTurns, id)
    ensures WentOn(rpc.log, |old(rpc.log)|, |rpc.log| - 1)
    ensures if o.Raised? then Raises(rpc.log, |old(rpc.log)|, o.failure) else !rpc.log[|rpc.log| - 1].reply.Throws?
    ensures o.Raised? ==> Threw(rpc.log, o.failure)
  {
    var seen: set<string> := {};
    for page := 0 to PAGES
      invariant rpc.Valid()
      invariant Unclosed(old(rpc.log), rpc.log, ListTurns, id) && |rpc.log| == |old(rpc.log)| + page
      invariant Met(rpc.log, |old(rpc.log)|, seen)
      invariant page == PAGES ==> Raises(rpc.log, |old(rpc.log)|, Plain) && Threw(rpc.log, Plain)
    {
      ghost var before := rpc.log;
      var reply := rpc.Do(ListTurns);
      ghost var e := Exchange(ListTurns, reply);
      PageOn(old(rpc.log), before, e, id, seen);
      if reply.Throws? { return Raised(reply.failure); }
      if !reply.Turns? { return Raised(Plain); }
      var turn := FindTurn(reply.turns, id);
      if turn.Some? { return Returned(turn); }
      if reply.next.None? { return Returned(None); }
      if reply.next.value in seen { return Raised(Plain); }
      MetOn(before, |old(rpc.log)|, seen, e);
      seen := seen + {reply.next.value};
    }
    o := Raised(Plain);
  }

  function OfCategory(c: Category): CloudResult {
    match c
    case Outage => Unavailable
    case Limit => CloudLimit
    case Account => AccountLimit
    case Broken => Invalid
  }

  function OfFailure(f: Failure): CloudResult {
    if f.Hosted? then OfCategory(f.category) else Invalid
  }

  /** What the run meets besides its calls: the connection, the upload, how many polls fit before the deadline, what
      the caller's signal reads, and a second connection. */
  datatype World = World(configured: bool, connect: Option<Failure>, placed: bool, upload: Option<Failure>,
                         polls: nat, aborted: nat -> bool, reconnect: Option<Failure>)

  /** A result that may lead to another attempt or to the local run. */
  predicate Fallible(r: CloudResult) { r.Unavailable? || r.CloudLimit? }

  /** Nothing is decided yet, nothing decisive was passed over, and no walk of the records is under way. */
  ghost predicate Undecided(log: seq<Exchange>, turn: string, command: string) {
    Count(log) == 0 && Decided(log, turn, command).None? && !Hidden(log, turn, command)
  }

  /** Calls that list no records decide nothing. */
  lemma {:induction false} StillUndecided(before: seq<Exchange>, after: seq<Exchange>, call: Call, turn: string,
                                          command: string)
    requires Listed(before, after, call) && call != ListItems
    requires Decided(before, turn, command).None? && !Hidden(before, turn, command)
    ensures Undecided(after, turn, command)
    decreases |after|
  {
    var n := |after| - 1;
    if n > |before| {
      StillUndecided(before, after[..n], call, turn, command);
    } else {
      assert after[..n] == before;
    }
    assert after[..n] + [after[n]] == after;
    UndecidedOn(after[..n], after[n], turn, command);
  }

  lemma UndecidedOn(log: seq<Exchange>, e: Exchange, turn: string, command: string)
    requires Decided(log, turn, command).None? && !Hidden(log, turn, command) && !Page(e)
    ensures Undecided(log + [e], turn, command)
  {
    LogOn(log, e);
    DecidedOn(log, e, turn, command);
  }

  /** A page that shows the turn ended in a way that means this result. */
  ghost predicate EndsAs(e: Exchange, turn: string, r: CloudResult) {
    Lists(e, turn) && var t := TurnOf(e.reply.turns, turn).value; t.status.Finished? && r == EndOf(t)
  }

  /** A page that shows that the turn has ended. */
  predicate Ending(e: Exchange, turn: string) {
    Lists(e, turn) && TurnOf(e.reply.turns, turn).value.status.Finished?
  }

  /** Nothing is asked any more once the turn was seen to have ended. */
  ghost predicate EndingAtLast(before: seq<Exchange>, after: seq<Exchange>, turn: string, ended: bool) {
    && before <= after && (forall i :: |before| <= i < |after| - 1 ==> !Ending(after[i], turn))
    && (ended <==> |before| < |after| && Ending(after[|after| - 1], turn))
  }

  lemma EndingOn(before: seq<Exchange>, mid: seq<Exchange>, after: seq<Exchange>, turn: string, ended: bool)
    requires EndingAtLast(before, mid, turn, false) && EndingAtLast(mid, after, turn, ended)
    ensures EndingAtLast(before, after, turn, ended)
  {
    forall i | |before| <= i < |after| - 1 ensures !Ending(after[i], turn) {
      if i < |mid| { assert after[i] == mid[i]; }
    }
    if |mid| == |after| { assert mid == after; }
  }

  /** The caller's signal is read as aborted at some point of the run. */
  predicate Aborts(w: World) { exists n :: 0 <= n <= 3 + w.polls && w.aborted(n) }

  /** Why a turn that decided nothing comes to this result: it ended so, it had to be stopped, or the caller aborted. */
  ghost predicate Comes(log: seq<Exchange>, w: World, turn: string, r: CloudResult) {
    || (exists e :: e in log && EndsAs(e, turn, r))
    || ((r == CloudLimit || (r == Invalid && Aborts(w))) && exists e :: e in log && e.call == Interrupt)
  }

  lemma ComesLater(before: seq<Exchange>, after: seq<Exchange>, w: World, turn: string, r: CloudResult)
    requires Comes(before, w, turn, r) && before <= after
    ensures Comes(after, w, turn, r)
  {
    assert forall e :: e in before ==> e in after;
  }

  /** A failure met before, on the second connection, or there. */
  ghost predicate Blamed(log: seq<Exchange>, w: World, f: Failure, blame: Failure) {
    f == blame || w.reconnect == Some(blame) || exists e :: e in log && e.reply == Throws(blame)
  }

  ghost predicate Interrupted(before: seq<Exchange>, after: seq<Exchange>) {
    before <= after && |after| == |before| + 1 && after[|before|].call == Interrupt
  }

  /** A failure gives its category's result, but an outage while the turn may be running first connects again and, if
      the turn's id is known, interrupts it; an account refusal or a broken answer on the way counts for more. */
  ghost predicate Handles(before: seq<Exchange>, after: seq<Exchange>, f: Failure, running: bool, known: bool, w: World,
                          r: CloudResult) {
    if f == Hosted(Outage) && running then
      var interrupts := w.reconnect.None? && known;
      && (if interrupts then Interrupted(before, after) else after == before)
      && var again := if !interrupts then w.reconnect
           else if after[|before|].reply.Throws? then Some(after[|before|].reply.failure) else None;
         r == if again.None? then Unavailable
              else match again.value
                   case Plain => Invalid
                   case Hosted(Account) => AccountLimit
                   case Hosted(Broken) => Invalid
                   case Hosted(_) => Unavailable
    else after == before && r == OfFailure(f)
  }

  /** The handler of anything thrown after the connection was made. `requested` says the command's turn was asked
      for, `known` that its id came back, `terminal` that the turn was seen to end. */
  method Recover(f: Failure, requested: bool, known: bool, terminal: bool, w: World, rpc: Rpc)
    returns (r: CloudResult)
    requires rpc.Valid()
    modifies rpc
    ensures rpc.Valid()
    ensures rpc.log == old(rpc.log) || (known && Interrupted(old(rpc.log), rpc.log))
    ensures !r.Verdict? && (r.Unavailable? ==> f == Hosted(Outage)) && (r.CloudLimit? ==> f == Hosted(Limit))
    ensures f == Plain ==> r == Invalid
    ensures f == Hosted(Account) ==> r == AccountLimit
    ensures Handles(old(rpc.log), rpc.log, f, requested && !terminal, known, w, r)
    ensures r == AccountLimit ==> Blamed(rpc.log, w, f, Hosted(Account))
    ensures r == Invalid ==> Blamed(rpc.log, w, f, Plain) || Blamed(rpc.log, w, f, Hosted(Broken))
  {
    if f == Hosted(Account) { return AccountLimit; }
    if f == Hosted(Limit) && !known { return CloudLimit; }
    if requested && !terminal && f == Hosted(Outage) {
      var again := w.reconnect;
      if again.None? && known {
        var reply := rpc.Do(Interrupt);
        assert Exchange(Interrupt, reply) in rpc.log;
        if reply.Throws? { again := Some(reply.failure); }
      }
      if again == Some(Hosted(Account)) { return AccountLimit; }
      if again == Some(Plain) || again == Some(Hosted(Broken)) { return Invalid; }
      return Unavailable;
    }
    r := OfFailure(f);
  }

  /** What a stretch of the run answers, by what the log decides then. */
  ghost predicate Answers(log: seq<Exchange>, turn: string, command: string, o: Outcome<Option<CloudResult>>) {
    && Decided(log, turn, command) == (if o.Returned? then o.value else None)
    && (Hidden(log, turn, command) ==> o == Raised(Plain))
  }

  /** The records and the turns were looked through so many times. */
  ghost predicate Polled(before: seq<Exchange>, after: seq<Exchange>, turn: string, polls: nat) {
    && Looks(after, ListItems, turn) == Looks(before, ListItems, turn) + polls
    && Looks(after, ListTurns, turn) == Looks(before, ListTurns, turn) + polls
  }

  /** Looks for the command's record and then at the turn: `ended` is what the turn's end would mean. */
  method Poll(rpc: Rpc, turn: string, command: string, ghost w: World)
    returns (o: Outcome<Option<CloudResult>>, ended: Option<CloudResult>)
    requires Undecided(rpc.log, turn, command)
    requires rpc.Valid()
    modifies rpc
    ensures rpc.Valid()
    ensures Grown(old(rpc.log), rpc.log) && Answers(rpc.log, turn, command, o)
    ensures o == Returned(None) ==> Undecided(rpc.log, turn, command) && Polled(old(rpc.log), rpc.log, turn, 1)
    ensures ended.Some? ==> o == Returned(None) && !ended.value.Verdict? && Comes(rpc.log, w, turn, ended.value)
    ensures EndingAtLast(old(rpc.log), rpc.log, turn, ended.Some?)
    ensures ended.Some? ==> EndsAs(rpc.log[|rpc.log| - 1], turn, ended.value)
    ensures o.Raised? ==> Threw(rpc.log, o.failure)
  {
    ended := None;
    o := LookForRecord(rpc, turn, command);
    if o != Returned(None) { return; }
    ghost var mid := rpc.log;
    var t := TurnAfter(rpc, turn, command, w);
    GrownOn(old(rpc.log), mid, rpc.log);
    EndingOn(old(rpc.log), mid, rpc.log, turn, t.Returned? && t.value.Some? && t.value.value.status.Finished?);
    if t.Raised? { return Raised(t.failure), None; }
    if t.value.Some? && t.value.value.status.Finished? { ended := Some(EndOf(t.value.value)); }
  }

  method LookForRecord(rpc: Rpc, turn: string, command: string) returns (o: Outcome<Option<CloudResult>>)
    requires Undecided(rpc.log, turn, command)
    requires rpc.Valid()
    modifies rpc
    ensures rpc.Valid()
    ensures Grown(old(rpc.log), rpc.log) && Answers(rpc.log, turn, command, o)
    ensures EndingAtLast(old(rpc.log), rpc.log, turn, false)
    ensures o == Returned(None) ==>
      && OneLook(old(rpc.log), rpc.log, ListItems, turn)
      && Decided(rpc.log, turn, command).None? && !Hidden(rpc.log, turn, command)
    ensures o.Raised? ==> Threw(rpc.log, o.failure)
  {
    o := CommandVerdict(rpc, turn, command);
  }

  /** What the end of a turn would mean. */
  function EndOf(t: Turn): CloudResult
    requires t.status.Finished?
  {
    if t.status.error.Some? then OfCategory(t.status.error.value) else Invalid
  }

  method TurnAfter(rpc: Rpc, turn: string, ghost command: string, ghost w: World) returns (t: Outcome<Option<Turn>>)
    requires Decided(rpc.log, turn, command).None? && !Hidden(rpc.log, turn, command)
    requires rpc.Valid()
    modifies rpc
    ensures rpc.Valid()
    ensures Grown(old(rpc.log), rpc.log) && Undecided(rpc.log, turn, command)
    ensures t.Returned? ==> OneLook(old(rpc.log), rpc.log, ListTurns, turn)
    ensures var ended := t.Returned? && t.value.Some? && t.value.value.status.Finished?;
      && EndingAtLast(old(rpc.log), rpc.log, turn, ended)
      && (ended ==> EndsAs(rpc.log[|rpc.log| - 1], turn, EndOf(t.value.value))
                    && Comes(rpc.log, w, turn, EndOf(t.value.value)))
    ensures t.Raised? ==> Threw(rpc.log, t.failure)
  {
    t := ReadTurn(rpc, turn);
    StillUndecided(old(rpc.log), rpc.log, ListTurns, turn, command);
    if t.Returned? && t.value.Some? && t.value.value.status.Finished? {
      ghost var e := rpc.log[|rpc.log| - 1];
      assert e in rpc.log && EndsAs(e, turn, EndOf(t.value.value));
    }
  }

  /** How the watch over a turn ended, after how many polls: `failure` is what is answered if no record is found. */
  datatype Watched = Watched(outcome: Outcome<Option<CloudResult>>, terminal: bool, timedOut: bool,
                             failure: CloudResult, polls: nat)

  /** By what was asked and answered: no poll was begun on an aborted signal; the turn was seen to have ended exactly
      in the last answer; with no end, no verdict and no error, the time was up or the signal aborted just then. */
  ghost predicate WatchTold(before: seq<Exchange>, after: seq<Exchange>, w: World, turn: string, seen: Watched) {
    && seen.polls <= w.polls && (forall i :: 3 <= i < 3 + seen.polls ==> !w.aborted(i))
    && EndingAtLast(before, after, turn, seen.terminal) && (seen.timedOut ==> !seen.terminal)
    && if seen.outcome != Returned(None) then !seen.terminal
       else
         && Polled(before, after, turn, seen.polls)
         && if seen.terminal then EndsAs(after[|after| - 1], turn, seen.failure)
            else if seen.timedOut then seen.polls == w.polls && !w.aborted(3 + seen.polls)
            else seen.failure == Invalid && w.aborted(3 + seen.polls)
  }

  /** What the watch comes to if a poll ends it, and what is known if it goes on. */
  ghost predicate PollTold(start: seq<Exchange>, after: seq<Exchange>, w: World, turn: string, poll: nat,
                           o: Outcome<Option<CloudResult>>, ended: Option<CloudResult>) {
    && EndingAtLast(start, after, turn, ended.Some?)
    && (o != Returned(None) ==> WatchTold(start, after, w, turn, Watched(o, false, false, Invalid, poll + 1)))
    && (o == Returned(None) ==> Polled(start, after, turn, poll + 1))
    && (ended.Some? ==> WatchTold(start, after, w, turn, Watched(o, true, false, ended.value, poll + 1)))
  }

  lemma WatchOn(start: seq<Exchange>, before: seq<Exchange>, after: seq<Exchange>, w: World, turn: string, poll: nat,
                o: Outcome<Option<CloudResult>>, ended: Option<CloudResult>)
    requires Grown(start, before) && Grown(before, after) && Polled(start, before, turn, poll)
    requires EndingAtLast(start, before, turn, false) && EndingAtLast(before, after, turn, ended.Some?)
    requires poll < w.polls && forall i :: 3 <= i <= 3 + poll ==> !w.aborted(i)
    requires o == Returned(None) ==> Polled(before, after, turn, 1)
    requires ended.Some? ==> o == Returned(None) && EndsAs(after[|after| - 1], turn, ended.value)
    ensures Grown(start, after) && PollTold(start, after, w, turn, poll, o, ended)
  {
    EndingOn(start, before, after, turn, ended.Some?);
    GrownOn(start, before, after);
  }

  /** One poll of a watch that began at `start`. */
  method WatchTurn(rpc: Rpc, turn: string, command: string, ghost w: World, ghost poll: nat, ghost start: seq<Exchange>)
    returns (o: Outcome<Option<CloudResult>>, ended: Option<CloudResult>)
    requires rpc.Valid() && Undecided(rpc.log, turn, command)
    requires Grown(start, rpc.log) && Polled(start, rpc.log, turn, poll) && EndingAtLast(start, rpc.log, turn, false)
    requires poll < w.polls && forall i :: 3 <= i <= 3 + poll ==> !w.aborted(i)
    modifies rpc
    ensures rpc.Valid()
    ensures Answers(rpc.log, turn, command, o)
    ensures o == Returned(None) ==> Undecided(rpc.log, turn, command)
    ensures Grown(start, rpc.log) && PollTold(start, rpc.log, w, turn, poll, o, ended)
    ensures ended.Some? ==> o == Returned(None) && !ended.value.Verdict? && Comes(rpc.log, w, turn, ended.value)
    ensures o.Raised? ==> Threw(rpc.log, o.failure)
  {
    o, ended := Poll(rpc, turn, command, w);
    WatchOn(start, old(rpc.log), rpc.log, w, turn, poll, o, ended);
  }

  /** Watches the turn until a verdict, its end, the deadline or an abort. */
  method Watch(rpc: Rpc, turn: string, command: string, w: World)
    returns (o: Outcome<Option<CloudResult>>, terminal: bool, timedOut: bool, failure: CloudResult, ghost polls: nat)
    requires Undecided(rpc.log, turn, command)
    requires rpc.Valid()
    modifies rpc
    ensures rpc.Valid()
    ensures Grown(old(rpc.log), rpc.log) && Answers(rpc.log, turn, command, o)
    ensures o == Returned(None) ==> Undecided(rpc.log, turn, command)
    ensures !failure.Verdict? && WatchTold(old(rpc.log), rpc.log, w, turn, Watched(o, terminal, timedOut, failure, polls))
    ensures o == Returned(None) && terminal ==> Comes(rpc.log, w, turn, failure)
    ensures o.Raised? ==> Threw(rpc.log, o.failure)
  {
    terminal, timedOut, failure, polls := false, false, Invalid, 0;
    for poll := 0 to w.polls
      invariant rpc.Valid()
      invariant Polled(old(rpc.log), rpc.log, turn, poll) && (forall i :: 3 <= i < 3 + poll ==> !w.aborted(i))
      invariant EndingAtLast(old(rpc.log), rpc.log, turn, false)
      invariant !terminal && !timedOut && failure == Invalid
      invariant Grown(old(rpc.log), rpc.log) && Undecided(rpc.log, turn, command)
    {
      polls := poll;
      if w.aborted(3 + poll) { return Returned(None), false, false, failure, poll; }
      polls := poll + 1;
      var ended;
      o, ended := WatchTurn(rpc, turn, command, w, poll, old(rpc.log));
      if o != Returned(None) { return; }
      if ended.Some? { return o, true, false, ended.value, poll + 1; }
    }
    o, timedOut, polls := Returned(None), !w.aborted(3 + w.polls), w.polls;
  }

  /** A stop that was asked for is a reason for a limit, and for an abort if there was one. */
  lemma StopComes(log: seq<Exchange>, i: nat, w: World, turn: string)
    requires i < |log| && log[i].call == Interrupt
    ensures Comes(log, w, turn, CloudLimit) && (Aborts(w) ==> Comes(log, w, turn, Invalid))
  {
    assert log[i] in log;
  }

  /** Asks for the turn to stop and gives it some time to be recorded as ended. */
  method Stop(rpc: Rpc, turn: string, ghost command: string, ghost w: World) returns (o: Outcome<bool>)
    requires Undecided(rpc.log, turn, command)
    requires rpc.Valid()
    modifies rpc
    ensures rpc.Valid()
    ensures Grown(old(rpc.log), rpc.log) && Undecided(rpc.log, turn, command)
    ensures EndingAtLast(old(rpc.log), rpc.log, turn, o == Returned(true))
    ensures o == Returned(false) ==>
      Looks(rpc.log, ListTurns, turn) == Looks(old(rpc.log), ListTurns, turn) + STOP_LOOKS
    ensures |old(rpc.log)| < |rpc.log| && rpc.log[|old(rpc.log)|].call == Interrupt
    ensures var reply := rpc.log[|old(rpc.log)|].reply;
      reply.Throws? ==> |rpc.log| == |old(rpc.log)| + 1 && o == Raised(reply.failure)
    ensures o.Raised? ==> Threw(rpc.log, o.failure)
  {
    var reply := rpc.Do(Interrupt);
    ghost var first := rpc.log;
    Stopped(old(rpc.log), first, turn, command, Exchange(Interrupt, reply));
    if reply.Throws? { return Raised(reply.failure); }
    o := AwaitTurn(rpc, turn, command, w);
    GrownOn(old(rpc.log), first, rpc.log);
    EndingOn(old(rpc.log), first, rpc.log, turn, o == Returned(true));
  }

  lemma Stopped(before: seq<Exchange>, after: seq<Exchange>, turn: string, command: string, e: Exchange)
    requires Undecided(before, turn, command) && after == before + [e] && e.call == Interrupt
    ensures Grown(before, after) && Undecided(after, turn, command)
    ensures EndingAtLast(before, after, turn, false) && (e.reply.Throws? ==> Threw(after, e.reply.failure))
    ensures Looks(after, ListTurns, turn) == Looks(before, ListTurns, turn)
  {
    UndecidedOn(before, e, turn, command);
    LooksSame(before, after, ListTurns, turn);
    assert e in after;
  }

  /** Gives a turn some time to be recorded as ended. */
  method AwaitTurn(rpc: Rpc, turn: string, ghost command: string, ghost w: World) returns (o: Outcome<bool>)
    requires rpc.Valid() && Undecided(rpc.log, turn, command)
    modifies rpc
    ensures rpc.Valid()
    ensures Grown(old(rpc.log), rpc.log) && Undecided(rpc.log, turn, command)
    ensures EndingAtLast(old(rpc.log), rpc.log, turn, o == Returned(true))
    ensures o == Returned(false) ==>
      Looks(rpc.log, ListTurns, turn) == Looks(old(rpc.log), ListTurns, turn) + STOP_LOOKS
    ensures o.Raised? ==> Threw(rpc.log, o.failure)
  {
    for attempt := 0 to STOP_LOOKS
      invariant rpc.Valid()
      invariant Looks(rpc.log, ListTurns, turn) == Looks(old(rpc.log), ListTurns, turn) + attempt
      invariant Grown(old(rpc.log), rpc.log) && Undecided(rpc.log, turn, command)
      invariant EndingAtLast(old(rpc.log), rpc.log, turn, false)
    {
      ghost var before := rpc.log;
      o := StopTurn(rpc, turn, command, w);
      GrownOn(old(rpc.log), before, rpc.log);
      EndingOn(old(rpc.log), before, rpc.log, turn, o == Returned(true));
      if o != Returned(false) { return; }
    }
    o := Returned(false);
  }

  /** Looks whether the turn has ended. */
  method StopTurn(rpc: Rpc, turn: string, ghost command: string, ghost w: World) returns (o: Outcome<bool>)
    requires rpc.Valid() && Undecided(rpc.log, turn, command)
    modifies rpc
    ensures rpc.Valid()
    ensures Grown(old(rpc.log), rpc.log) && Undecided(rpc.log, turn, command)
    ensures EndingAtLast(old(rpc.log), rpc.log, turn, o == Returned(true))
    ensures o.Returned? ==> Looks(rpc.log, ListTurns, turn) == Looks(old(rpc.log), ListTurns, turn) + 1
    ensures o.Raised? ==> Threw(rpc.log, o.failure)
  {
    var t := TurnAfter(rpc, turn, command, w);
    o := if t.Raised? then Raised(t.failure) else Returned(t.value.Some? && t.value.value.status.Finished?);
  }

  /** From the command's turn to a result, or to an error for the handler: the watch, and unless it decided or raised,
      what comes after it. */
  ghost predicate Observed(before: seq<Exchange>, after: seq<Exchange>, w: World, turn: string, command: string,
                           o: Outcome<CloudResult>, terminal: bool) {
    exists mid, seen :: ObservedBy(before, mid, after, w, turn, command, seen, o, terminal)
  }

  ghost predicate ObservedBy(before: seq<Exchange>, mid: seq<Exchange>, after: seq<Exchange>, w: World, turn: string,
                             command: string, seen: Watched, o: Outcome<CloudResult>, terminal: bool) {
    && WatchTold(before, mid, w, turn, seen)
    && match seen.outcome
       case Raised(f) => after == mid && o == Raised(f) && !terminal
       case Returned(Some(v)) => after == mid && o == Returned(v) && !terminal
       case Returned(None) => FinishTold(mid, after, turn, command, seen.terminal, Otherwise(seen), o, terminal)
  }

  function Otherwise(seen: Watched): CloudResult { if seen.timedOut then CloudLimit else seen.failure }

  method Observe(rpc: Rpc, turn: string, command: string, w: World) returns (o: Outcome<CloudResult>, terminal: bool)
    requires Undecided(rpc.log, turn, command)
    requires rpc.Valid()
    modifies rpc
    ensures rpc.Valid()
    ensures Grown(old(rpc.log), rpc.log) && AnswersAtLast(rpc.log, w, turn, command, o)
    ensures Observed(old(rpc.log), rpc.log, w, turn, command, o, terminal)
    ensures o.Raised? ==> Threw(rpc.log, o.failure)
  {
    var watched, timedOut, failure;
    ghost var polls;
    watched, terminal, timedOut, failure, polls := Watch(rpc, turn, command, w);
    ghost var mid, seen := rpc.log, Watched(watched, terminal, timedOut, failure, polls);
    if watched.Raised? {
      assert ObservedBy(old(rpc.log), mid, rpc.log, w, turn, command, seen, Raised(watched.failure), terminal);
      return Raised(watched.failure), terminal;
    }
    if watched.value.Some? {
      assert ObservedBy(old(rpc.log), mid, rpc.log, w, turn, command, seen, Returned(watched.value.value), terminal);
      return Returned(watched.value.value), terminal;
    }
    AbortedThen(w, seen);
    o, terminal := Finish(rpc, turn, command, w, terminal, if timedOut then CloudLimit else failure);
    GrownOn(old(rpc.log), mid, rpc.log);
    assert ObservedBy(old(rpc.log), mid, rpc.log, w, turn, command, seen, o, terminal);
  }

  lemma AbortedThen(w: World, seen: Watched)
    requires seen.polls <= w.polls
    ensures w.aborted(3 + seen.polls) ==> Aborts(w)
  {
  }

  lemma GrownOn(before: seq<Exchange>, mid: seq<Exchange>, after: seq<Exchange>)
    requires Grown(before, mid) && Grown(mid, after)
    ensures Grown(before, after)
  {
    forall i | |before| <= i < |after| ensures after[i].call != StartTurn {
      if i < |mid| { assert after[i] == mid[i]; }
    }
  }

  /** By what was asked and answered: a turn that had ended is not stopped, any other is, and is given up as limited
      when it was not seen to end in time; one that ended is looked through once more, and is answered by a record
      found there, or as it was otherwise. */
  ghost predicate FinishTold(before: seq<Exchange>, after: seq<Exchange>, turn: string, command: string, ended: bool,
                             otherwise: CloudResult, o: Outcome<CloudResult>, terminal: bool) {
    && before < after && (terminal <==> ended || exists i :: |before| <= i < |after| && Ending(after[i], turn))
    && (if ended then forall i :: |before| <= i < |after| ==> after[i].call == ListItems
        else after[|before|].call == Interrupt
             && (after[|before|].reply.Throws? ==> |after| == |before| + 1 && o == Raised(after[|before|].reply.failure)))
    && (terminal && o.Returned? ==>
          after[|after| - 1].call == ListItems && (Decided(after, turn, command).None? ==> o.value == otherwise))
    && (!terminal && o.Returned? ==>
          && o.value == CloudLimit
          && Looks(after, ListTurns, turn) == Looks(before, ListTurns, turn) + STOP_LOOKS)
  }

  /** Sees to it that the turn has ended and looks for its record once more. */
  method Finish(rpc: Rpc, turn: string, command: string, ghost w: World, ended: bool, otherwise: CloudResult)
    returns (o: Outcome<CloudResult>, terminal: bool)
    requires Undecided(rpc.log, turn, command) && !otherwise.Verdict?
    requires Comes(rpc.log, w, turn, otherwise)
      || (!ended && (otherwise == CloudLimit || (otherwise == Invalid && Aborts(w))))
    requires rpc.Valid()
    modifies rpc
    ensures rpc.Valid()
    ensures Grown(old(rpc.log), rpc.log) && AnswersAtLast(rpc.log, w, turn, command, o)
    ensures o.Raised? ==> Threw(rpc.log, o.failure)
    ensures FinishTold(old(rpc.log), rpc.log, turn, command, ended, otherwise, o, terminal)
  {
    if !ended {
      var stopped := Stop(rpc, turn, command, w);
      StopComes(rpc.log, |old(rpc.log)|, w, turn);
      if stopped.Raised? || !stopped.value {
        NotEnded(old(rpc.log), rpc.log, turn, command, otherwise, stopped);
        return if stopped.Raised? then Raised(stopped.failure) else Returned(CloudLimit), false;
      }
    }
    terminal := true;
    ghost var mid := rpc.log;
    if Comes(old(rpc.log), w, turn, otherwise) { ComesLater(old(rpc.log), mid, w, turn, otherwise); }
    o := LastLook(rpc, turn, command, w, otherwise);
    GrownOn(old(rpc.log), mid, rpc.log);
    Finished(old(rpc.log), mid, rpc.log, turn, command, ended, otherwise, o);
  }

  /** A stop after which the turn was not seen to end. */
  lemma NotEnded(before: seq<Exchange>, after: seq<Exchange>, turn: string, command: string, otherwise: CloudResult,
                 stopped: Outcome<bool>)
    requires before < after && EndingAtLast(before, after, turn, false) && after[|before|].call == Interrupt
    requires after[|before|].reply.Throws? ==>
      |after| == |before| + 1 && stopped == Raised(after[|before|].reply.failure)
    requires stopped.Returned? ==>
      Looks(after, ListTurns, turn) == Looks(before, ListTurns, turn) + STOP_LOOKS
    ensures FinishTold(before, after, turn, command, false, otherwise,
                       if stopped.Raised? then Raised(stopped.failure) else Returned(CloudLimit), false)
  {
    forall i | |before| <= i < |after| ensures !Ending(after[i], turn) { }
  }

  lemma Finished(before: seq<Exchange>, mid: seq<Exchange>, after: seq<Exchange>, turn: string, command: string,
                 ended: bool, otherwise: CloudResult, o: Outcome<CloudResult>)
    requires if ended then mid == before
      else before < mid && EndingAtLast(before, mid, turn, true) && mid[|before|].call == Interrupt
           && !mid[|before|].reply.Throws?
    requires Listed(mid, after, ListItems)
    requires o.Returned? && Decided(after, turn, command).None? ==> o.value == otherwise
    ensures FinishTold(before, after, turn, command, ended, otherwise, o, true)
  {
    if !ended { assert Ending(after[|mid| - 1], turn); }
  }

  /** The records once more. */
  method LastLook(rpc: Rpc, turn: string, command: string, ghost w: World, otherwise: CloudResult)
    returns (o: Outcome<CloudResult>)
    requires Undecided(rpc.log, turn, command) && !otherwise.Verdict? && Comes(rpc.log, w, turn, otherwise)
    requires rpc.Valid()
    modifies rpc
    ensures rpc.Valid()
    ensures Listed(old(rpc.log), rpc.log, ListItems) && AnswersAtLast(rpc.log, w, turn, command, o)
    ensures o.Returned? && Decided(rpc.log, turn, command).None? ==> o.value == otherwise
    ensures o.Raised? ==> Threw(rpc.log, o.failure)
  {
    var last := CommandVerdict(rpc, turn, command);
    ComesLater(old(rpc.log), rpc.log, w, turn, otherwise);
    o := if last.Raised? then Raised(last.failure)
         else Returned(if last.value.Some? then last.value.value else otherwise);
  }

  /** What the run of a turn answers: what was decided, or anything but a verdict. */
  ghost predicate AnswersAtLast(log: seq<Exchange>, w: World, turn: string, command: string, o: Outcome<CloudResult>) {
    var decided := Decided(log, turn, command);
    && (decided.Some? ==> o == Returned(decided.value)) && (Hidden(log, turn, command) ==> o == Raised(Plain))
    && (o.Returned? && o.value.Verdict? ==> decided.Some?)
    && (o.Returned? && decided.None? ==> Comes(log, w, turn, o.value))
  }

  /** The id the service gave the command's turn. */
  function Asked(log: seq<Exchange>): Option<string> {
    if log == [] then None
    else if log[|log| - 1].call == StartTurn then
      var reply := log[|log| - 1].reply;
      if reply.Done? && reply.value.Some? && reply.value.value != "" then reply.value else None
    else Asked(log[..|log| - 1])
  }

  /** Only calls about the turn were made since. */
  ghost predicate Grown(before: seq<Exchange>, after: seq<Exchange>) {
    before <= after && forall i :: |before| <= i < |after| ==> after[i].call != StartTurn
  }

  lemma {:induction false} AskedStays(before: seq<Exchange>, after: seq<Exchange>)
    requires Grown(before, after)
    ensures Asked(after) == Asked(before)
    decreases |after|
  {
    if |before| < |after| {
      AskedStays(before, after[..|after| - 1]);
    } else {
      assert before == after;
    }
  }

  /** A log without pages decides nothing. */
  lemma {:induction false} NoPages(log: seq<Exchange>, turn: string, command: string)
    requires forall e :: e in log ==> !Page(e)
    ensures Undecided(log, turn, command)
  {
    if log != [] {
      var n := |log| - 1;
      var before, e := log[..n], log[n];
      assert log == before + [e] && e in log;
      assert forall x :: x in before ==> x in log;
      NoPages(before, turn, command);
      UndecidedOn(before, e, turn, command);
    }
  }

  /** What a run's log makes of its result: what the first decisive record of the command in its turn says is the
      result; one that was received past the record limit makes it invalid; and no verdict comes from anything else. */
  ghost predicate Told(log: seq<Exchange>, command: string, r: CloudResult) {
    match Asked(log)
    case None => !r.Verdict?
    case Some(turn) =>
      var decided := Decided(log, turn, command);
      && (decided.Some? ==> r == decided.value) && (r.Verdict? ==> decided.Some?)
      && (Hidden(log, turn, command) ==> r == Invalid)
  }

  /** A decisive record that reached the run never leads to another attempt or to the local run. */
  lemma DecisiveStands(log: seq<Exchange>, command: string, r: CloudResult, turn: string, i: Item)
    requires Told(log, command, r) && Asked(log) == Some(turn)
    requires i in Received(log) && Decisive(i, turn, command)
    ensures !Fallible(r) && r != AccountLimit
  {
    assert First(Received(log), turn, command).Some?;
  }

  /** The interrupt of a recovery changes nothing of what was decided or asked. */
  lemma InterruptStep(log: seq<Exchange>, e: Exchange, turn: string, command: string)
    requires e.call == Interrupt
    ensures Decided(log + [e], turn, command) == Decided(log, turn, command) && Asked(log + [e]) == Asked(log)
    ensures Hidden(log + [e], turn, command) == Hidden(log, turn, command)
  {
    LogOn(log, e);
    assert (log + [e])[..|log|] == log;
    assert Yielded(log) + [] == Yielded(log) && Received(log) + [] == Received(log);
  }

  /** Something failed in this way: the connection, the upload, a call, or the turn. */
  ghost predicate Failed(log: seq<Exchange>, w: World, c: Category) {
    || Some(Hosted(c)) in {w.connect, w.upload, w.reconnect}
    || (exists e :: e in log && e.reply == Throws(Hosted(c)))
    || (exists e, turn :: e in log && EndsAs(e, turn, OfCategory(c)))
  }

  /** Why a run is invalid: the caller aborted, nothing was configured or placed, something failed in no known way or
      as broken, the turn got no id or ended without an error, or its first decisive record is unsound. */
  ghost predicate Spoiled(log: seq<Exchange>, w: World, command: string) {
    || Aborts(w) || !w.configured || !w.placed || Some(Plain) in {w.connect, w.upload, w.reconnect}
    || Threw(log, Plain) || Failed(log, w, Broken)
    || (exists e :: e in log && e.call == StartTurn && !NamesTurn(e.reply))
    || (exists e, turn :: e in log && EndsAs(e, turn, Invalid))
    || (exists turn :: Asked(log) == Some(turn) && Decided(log, turn, command) == Some(Invalid))
  }

  /** The answer to a request for a turn that has its id. */
  predicate NamesTurn(r: Reply) { r.Done? && r.value.Some? && r.value.value != "" }

  /** Every result but a verdict has its reason; a limit may also be a turn that had to be stopped. */
  ghost predicate Explained(log: seq<Exchange>, w: World, command: string, r: CloudResult) {
    match r
    case Unavailable => Failed(log, w, Outage)
    case CloudLimit => Failed(log, w, Limit) || exists e :: e in log && e.call == Interrupt
    case AccountLimit => Failed(log, w, Account)
    case Invalid => Spoiled(log, w, command)
    case Verdict(_, _) => true
  }

  /** What the handler makes of a failure is explained by it. */
  lemma RecoverExplains(before: seq<Exchange>, log: seq<Exchange>, w: World, command: string, f: Failure,
                        r: CloudResult)
    requires before <= log && (Threw(before, f) || w.upload == Some(f))
    requires (r.Unavailable? ==> f == Hosted(Outage)) && (r.CloudLimit? ==> f == Hosted(Limit)) && !r.Verdict?
    requires r == AccountLimit ==> Blamed(log, w, f, Hosted(Account))
    requires r == Invalid ==> Blamed(log, w, f, Plain) || Blamed(log, w, f, Hosted(Broken))
    ensures Explained(log, w, command, r)
  {
    assert forall e :: e in before ==> e in log;
    if Garbled(before) { GarbledLater(before, log); }
  }

  /** Everything before the command's turn that can end a run, in order, with what it would come to: the caller's
      signal and the configuration, the connection, the signal, the thread, its placement, the upload, the revert. */
  function Gates(w: World, replies: seq<Reply>): seq<Option<CloudResult>> {
    [ if w.aborted(0) || !w.configured then Some(Invalid) else None, ShutBy(w.connect),
      if w.aborted(1) then Some(Invalid) else None, ShutBy(Thrown(ReplyAt(replies, 0))),
      if !w.placed || w.aborted(2) then Some(Invalid) else None, ShutBy(w.upload),
      ShutBy(Thrown(ReplyAt(replies, 1))) ]
  }

  function ShutBy(f: Option<Failure>): Option<CloudResult> { if f.Some? then Some(OfFailure(f.value)) else None }

  function Thrown(r: Reply): Option<Failure> { if r.Throws? then Some(r.failure) else None }

  /** The first of these that is shut ends the run; none is. */
  ghost predicate Opens(gates: seq<Option<CloudResult>>, over: Option<CloudResult>) {
    if over.None? then forall i :: 0 <= i < |gates| ==> gates[i].None?
    else exists i :: 0 <= i < |gates| && gates[i] == over && forall j :: 0 <= j < i ==> gates[j].None?
  }

  lemma OpensTo(gates: seq<Option<CloudResult>>, i: nat)
    requires i < |gates| && gates[i].Some? && forall j :: 0 <= j < i ==> gates[j].None?
    ensures Opens(gates, gates[i])
  {}

  /** Before anything was asked, what ends the run is its own reason. */
  lemma RefusedEarly(w: World, replies: seq<Reply>, command: string, i: nat)
    requires i < 3 && Gates(w, replies)[i].Some? && forall j :: 0 <= j < i ==> Gates(w, replies)[j].None?
    ensures Opens(Gates(w, replies), Gates(w, replies)[i])
    ensures !Gates(w, replies)[i].value.Verdict? && Explained([], w, command, Gates(w, replies)[i].value)
  {
    OpensTo(Gates(w, replies), i);
    assert i == 1 ==> w.connect.Some?;
  }

  /** What is made of the watched turn, and of an error on the way by the handler. */
  ghost predicate TurnTold(before: seq<Exchange>, log: seq<Exchange>, w: World, turn: string, command: string,
                           r: CloudResult) {
    exists seen, o, terminal ::
      Observed(before, seen, w, turn, command, o, terminal) && Handed(seen, log, w, o, terminal, r)
  }

  ghost predicate Handed(seen: seq<Exchange>, log: seq<Exchange>, w: World, o: Outcome<CloudResult>, terminal: bool,
                         r: CloudResult) {
    match o
    case Returned(v) => log == seen && r == v
    case Raised(f) => Handles(seen, log, f, !terminal, true, w, r)
  }

  /** From the request for the command's turn on. */
  ghost predicate Turned(log: seq<Exchange>, w: World, command: string, r: CloudResult) {
    && |log| > 2 && log[2].call == StartTurn
    && var reply := log[2].reply;
       if reply.Throws? then Handles(log[..3], log, reply.failure, true, false, w, r)
       else if !NamesTurn(reply) then r == Invalid && |log| == 3
       else TurnTold(log[..3], log, w, reply.value.value, command, r)
  }

  /** What a run comes to, step by step: what ends it before its turn, or else what comes of the turn. */
  ghost predicate RunTold(log: seq<Exchange>, w: World, replies: seq<Reply>, command: string, r: CloudResult) {
    || Opens(Gates(w, replies), Some(r))
    || (Opens(Gates(w, replies), None) && Turned(log, w, command, r))
  }

  /** One remote run. */
  method TransportRun(rpc: Rpc, w: World, command: string) returns (r: CloudResult)
    requires rpc.log == []
    requires rpc.Valid()
    modifies rpc
    ensures rpc.Valid()
    ensures Told(rpc.log, command, r) && Explained(rpc.log, w, command, r)
    ensures RunTold(rpc.log, w, rpc.replies, command, r)
  {
    var over := Prepare(rpc, w, command);
    if over.Some? { return over.value; }
    ghost var prepared := rpc.log;
    var turned := rpc.Do(StartTurn);
    assert Exchange(StartTurn, turned) in rpc.log && rpc.log[..|prepared|] == prepared;
    ghost var requested := rpc.log;
    if turned.Throws? {
      r := Handle(turned.failure, true, false, false, w, command, rpc);
      assert rpc.log[..3] == requested;
      return;
    }
    if !NamesTurn(turned) { return Invalid; }
    r := RunTurn(rpc, turned.value.value, command, w);
    assert rpc.log[..3] == requested;
  }

  /** The connection, the thread, the upload and the revert; or the result when one of them ends the run. */
  method Prepare(rpc: Rpc, w: World, ghost command: string) returns (over: Option<CloudResult>)
    requires rpc.Valid() && rpc.log == []
    modifies rpc
    ensures rpc.Valid() && forall e :: e in rpc.log ==> e.call == StartThread || e.call == Revert
    ensures Asked(rpc.log) == None && Opens(Gates(w, rpc.replies), over)
    ensures over.None? ==> |rpc.log| == 2 && rpc.log[0].call == StartThread && rpc.log[1].call == Revert
    ensures over.Some? ==> !over.value.Verdict? && Explained(rpc.log, w, command, over.value)
  {
    ghost var gates := Gates(w, rpc.replies);
    if w.aborted(0) || !w.configured { RefusedEarly(w, rpc.replies, command, 0); return Some(Invalid); }
    if w.connect.Some? { RefusedEarly(w, rpc.replies, command, 1); return Some(OfFailure(w.connect.value)); }
    if w.aborted(1) { RefusedEarly(w, rpc.replies, command, 2); return Some(Invalid); }
    var started := rpc.Do(StartThread);
    assert rpc.log[0] == Exchange(StartThread, started);
    if started.Throws? {
      OpensTo(gates, 3);
      AskedStays([], rpc.log);
      var r := Handle(started.failure, false, false, false, w, command, rpc);
      return Some(r);
    }
    over := Load(rpc, w, command, gates);
  }

  /** The upload and the revert, in the place the thread was given. */
  method Load(rpc: Rpc, w: World, ghost command: string, ghost gates: seq<Option<CloudResult>>)
    returns (over: Option<CloudResult>)
    requires rpc.Valid() && |rpc.log| == 1 && rpc.log[0].call == StartThread
    requires gates == Gates(w, rpc.replies) && forall j :: 0 <= j < 4 ==> gates[j].None?
    modifies rpc
    ensures rpc.Valid() && forall e :: e in rpc.log ==> e.call == StartThread || e.call == Revert
    ensures Asked(rpc.log) == None && Opens(gates, over)
    ensures over.None? ==> |rpc.log| == 2 && rpc.log[0].call == StartThread && rpc.log[1].call == Revert
    ensures over.Some? ==> !over.value.Verdict? && Explained(rpc.log, w, command, over.value)
  {
    AskedStays([], rpc.log);
    if !w.placed || w.aborted(2) { OpensTo(gates, 4); return Some(Invalid); }
    if w.upload.Some? {
      OpensTo(gates, 5);
      var r := Handle(w.upload.value, false, false, false, w, command, rpc);
      return Some(r);
    }
    var reverted := rpc.Do(Revert);
    AskedStays([], rpc.log);
    assert rpc.log[1] == Exchange(Revert, reverted);
    if reverted.Throws? {
      OpensTo(gates, 6);
      var r := Handle(reverted.failure, false, false, false, w, command, rpc);
      return Some(r);
    }
    over := None;
  }

  /** The handler, and why its result is what it is. */
  method Handle(f: Failure, requested: bool, known: bool, terminal: bool, w: World, ghost command: string, rpc: Rpc)
    returns (r: CloudResult)
    requires rpc.Valid() && (Threw(rpc.log, f) || w.upload == Some(f))
    modifies rpc
    ensures rpc.Valid() && Explained(rpc.log, w, command, r)
    ensures rpc.log == old(rpc.log) || (known && Interrupted(old(rpc.log), rpc.log))
    ensures !r.Verdict? && (f == Plain ==> r == Invalid)
    ensures Handles(old(rpc.log), rpc.log, f, requested && !terminal, known, w, r)
  {
    r := Recover(f, requested, known, terminal, w, rpc);
    RecoverExplains(old(rpc.log), rpc.log, w, command, f, r);
  }

  /** The run from the command's turn on. */
  method RunTurn(rpc: Rpc, turn: string, command: string, w: World) returns (r: CloudResult)
    requires rpc.Valid() && Asked(rpc.log) == Some(turn) && forall e :: e in rpc.log ==> !Page(e)
    modifies rpc
    ensures rpc.Valid() && Told(rpc.log, command, r) && Explained(rpc.log, w, command, r)
    ensures old(rpc.log) <= rpc.log && TurnTold(old(rpc.log), rpc.log, w, turn, command, r)
  {
    NoPages(rpc.log, turn, command);
    var o, terminal := Observe(rpc, turn, command, w);
    AskedStays(old(rpc.log), rpc.log);
    if o.Raised? {
      ghost var seen := rpc.log;
      r := Handle(o.failure, true, true, terminal, w, command, rpc);
      HandledTells(seen, rpc.log, w, turn, command, o, r);
      assert Handed(seen, rpc.log, w, o, terminal, r);
      return;
    }
    r := o.value;
    AnswerTells(rpc.log, w, turn, command, r);
    assert Handed(rpc.log, rpc.log, w, o, terminal, r);
  }

  lemma AnswerTells(log: seq<Exchange>, w: World, turn: string, command: string, r: CloudResult)
    requires Asked(log) == Some(turn) && AnswersAtLast(log, w, turn, command, Returned(r))
    ensures Told(log, command, r) && Explained(log, w, command, r)
  {
  }

  lemma HandledTells(seen: seq<Exchange>, log: seq<Exchange>, w: World, turn: string, command: string,
                     o: Outcome<CloudResult>, r: CloudResult)
    requires Asked(seen) == Some(turn) && o.Raised? && AnswersAtLast(seen, w, turn, command, o)
    requires (log == seen || Interrupted(seen, log)) && !r.Verdict? && (o.failure == Plain ==> r == Invalid)
    ensures Told(log, command, r)
  {
    if seen != log {
      InterruptStep(seen, log[|seen|], turn, command);
      assert log == seen + [log[|seen|]];
    }
  }

  /** One remote attempt: its command, its result and everything that was asked and answered. */
  datatype Attempt = Attempt(command: string, result: CloudResult, log: seq<Exchange>)

  /** What the service and the surroundings hold ready for one attempt. */
  datatype Offer = Offer(replies: seq<Reply>, world: World)

  ghost predicate Faced(a: Attempt, offer: Offer) {
    && AnsweredFrom(a.log, offer.replies) && Explained(a.log, offer.world, a.command, a.result)
    && RunTold(a.log, offer.world, offer.replies, a.command, a.result)
  }

  class Transport {
    const offers: nat -> Offer
    var attempts: seq<Attempt>

    constructor (offers: nat -> Offer)
      ensures Valid() && attempts == []
    {
      this.offers, attempts := offers, [];
    }

    /** Each attempt met what was offered to it, and its result is explained by it. */
    ghost predicate Valid()
      reads this
    {
      forall i :: 0 <= i < |attempts| ==> Faced(attempts[i], offers(i))
    }

    method Run(command: string) returns (r: CloudResult)
      requires Valid()
      modifies `attempts
      ensures Valid()
      ensures exists log :: attempts == old(attempts) + [Attempt(command, r, log)] && Told(log, command, r)
    {
      var offer := offers(|attempts|);
      var rpc := new Rpc(offer.replies);
      r := TransportRun(rpc, offer.world, command);
      attempts := attempts + [Attempt(command, r, rpc.log)];
    }
  }

  /** The local run of the same checks. */
  class Local {
    const code: nat -> int
    var runs: seq<int>

    constructor (code: nat -> int)
      ensures Valid() && runs == []
    {
      this.code, runs := code, [];
    }

    ghost predicate Valid()
      reads this
    {
      forall i :: 0 <= i < |runs| ==> runs[i] == code(i)
    }

    method Run() returns (r: int)
      requires Valid()
      modifies `runs
      ensures Valid() && runs == old(runs) + [r]
    {
      r := code(|runs|);
      runs := runs + [r];
    }
  }

  /** The caller's signal: whether it has aborted, reading by reading. */
  class Signal {
    const aborted: nat -> bool
    var readings: seq<bool>

    constructor (aborted: nat -> bool)
      ensures Valid() && readings == []
    {
      this.aborted, readings := aborted, [];
    }

    ghost predicate Valid()
      reads this
    {
      forall i :: 0 <= i < |readings| ==> readings[i] == aborted(i)
    }

    method Read() returns (r: bool)
      requires Valid()
      modifies `readings
      ensures Valid() && readings == old(readings) + [r]
    {
      r := aborted(|readings|);
      readings := readings + [r];
    }
  }

  datatype Job = Job(receipt: Receipt, command: string)

  /** What a result that ends the attempts is worth. */
  function Grade(job: Job, r: CloudResult): int {
    match r
    case Verdict(receipt, code) => if receipt == job.receipt && 0 <= code <= 255 then code else 1
    case AccountLimit => 75
    case _ => 1
  }

  /** A record that ends the command in its turn. */
  predicate Ends(i: Item, turn: string, command: string) {
    && i.turn == turn && i.execution && IsExactCommand(i.command, command)
    && (i.status.Completed? || i.status.Failed? || i.status.Declined?)
  }

  /** The command exited with this code and printed it with this receipt; it was not declined, and not failed with a
      code that claims success. */
  predicate Vouches(i: Item, receipt: Receipt, code: int) {
    && i.exit == Some(code) && i.printed == Some((receipt, code))
    && !i.status.Declined? && (i.status.Failed? ==> code != 0)
  }

  /** The first record of the log's pages that ends the command, within the record limit, vouches for this code. */
  ghost predicate PrintedBy(log: seq<Exchange>, job: Job, code: int) {
    0 <= code <= 255 && exists turn: string, i: nat :: PrintedAt(log, job, code, turn, i)
  }

  ghost predicate PrintedAt(log: seq<Exchange>, job: Job, code: int, turn: string, i: nat) {
    var items := Yielded(log);
    && Asked(log) == Some(turn) && i < |items|
    && Ends(items[i], turn, job.command) && Vouches(items[i], job.receipt, code)
    && forall j :: 0 <= j < i ==> !Ends(items[j], turn, job.command)
  }

  /** What an attempt that settled something answers: the code its check printed, 75 for an account refusal, or 1. */
  ghost predicate Answered(a: Attempt, job: Job, code: int) {
    && (forall c :: PrintedBy(a.log, job, c) ==> code == c)
    && ((forall c :: !PrintedBy(a.log, job, c)) ==> code == if a.result == AccountLimit then 75 else 1)
    && (code == 0 ==> PrintedBy(a.log, job, 0))
  }

  lemma {:induction false} FirstIs(items: seq<Item>, turn: string, command: string) returns (i: nat)
    requires First(items, turn, command).Some?
    ensures i < |items| && items[i] == First(items, turn, command).value
    ensures forall j :: 0 <= j < i ==> !Ends(items[j], turn, command)
  {
    if Decisive(items[0], turn, command) {
      i := 0;
    } else {
      i := FirstIs(items[1..], turn, command);
      i := i + 1;
    }
  }

  /** No other record can be the first. */
  lemma PrintedOnce(log: seq<Exchange>, job: Job, code: int, turn: string, i: nat)
    requires Asked(log) == Some(turn) && i < |Yielded(log)| && Ends(Yielded(log)[i], turn, job.command)
    requires forall j :: 0 <= j < i ==> !Ends(Yielded(log)[j], turn, job.command)
    ensures PrintedBy(log, job, code) <==> 0 <= code <= 255 && Vouches(Yielded(log)[i], job.receipt, code)
  {
    if 0 <= code <= 255 && Vouches(Yielded(log)[i], job.receipt, code) {
      assert PrintedAt(log, job, code, turn, i);
    }
  }

  lemma GradeAnswers(a: Attempt, job: Job)
    requires Told(a.log, job.command, a.result) && !Fallible(a.result)
    ensures Answered(a, job, Grade(job, a.result))
  {
    if Asked(a.log).Some? && Decided(a.log, Asked(a.log).value, job.command).Some? {
      var turn := Asked(a.log).value;
      var i := FirstIs(Yielded(a.log), turn, job.command);
      forall c: int
        ensures PrintedBy(a.log, job, c) <==> 0 <= c <= 255 && Vouches(Yielded(a.log)[i], job.receipt, c)
      {
        PrintedOnce(a.log, job, c, turn, i);
      }
      if a.result.Verdict? && a.result.receipt == job.receipt && 0 <= a.result.code <= 255 {
        assert PrintedBy(a.log, job, a.result.code);
      }
    } else {
      forall c: int ensures !PrintedBy(a.log, job, c) { NothingPrinted(a, job, c); }
    }
  }

  lemma NothingPrinted(a: Attempt, job: Job, code: int)
    requires Asked(a.log).Some? ==> Decided(a.log, Asked(a.log).value, job.command).None?
    ensures !PrintedBy(a.log, job, code)
  {
    forall turn: string, i: nat ensures !PrintedAt(a.log, job, code, turn, i) {
      if Asked(a.log) == Some(turn) && i < |Yielded(a.log)| {
        assert Yielded(a.log)[i] in Yielded(a.log);
      }
    }
  }

  /** Attempts that came one after another because none of the earlier ones settled anything. */
  ghost predicate Retried(attempts: seq<Attempt>, command: string) {
    && (forall i :: 0 <= i < |attempts| ==> Told(attempts[i].log, command, attempts[i].result))
    && forall i :: 0 <= i < |attempts| - 1 ==> Fallible(attempts[i].result)
  }

  /** No attempt received a terminal record of the exact command in its turn. */
  ghost predicate NothingDecisive(attempts: seq<Attempt>, command: string) {
    forall i :: 0 <= i < |attempts| ==> Undecisive(attempts[i], command)
  }

  ghost predicate Undecisive(a: Attempt, command: string) {
    forall turn: string, item | Asked(a.log) == Some(turn) ::
      item in Received(a.log) ==> !Decisive(item, turn, command)
  }

  lemma FallibleUndecisive(a: Attempt, command: string)
    requires Told(a.log, command, a.result) && Fallible(a.result)
    ensures Undecisive(a, command)
  {
    forall turn: string, item | Asked(a.log) == Some(turn) && item in Received(a.log)
      ensures !Decisive(item, turn, command)
    {
      if Decisive(item, turn, command) { DecisiveStands(a.log, command, a.result, turn, item); }
    }
  }

  /** The last attempt settled something, and this is what it is worth. */
  ghost predicate Worth(attempts: seq<Attempt>, job: Job, code: int) {
    attempts != [] &&
    var last := attempts[|attempts| - 1].result; !Fallible(last) && code == Grade(job, last)
  }

  ghost predicate Settled(attempts: seq<Attempt>, job: Job, code: int) {
    Worth(attempts, job, code) && Answered(attempts[|attempts| - 1], job, code)
  }

  lemma FalliblesDecideNothing(attempts: seq<Attempt>, command: string)
    requires Retried(attempts, command) && attempts != [] && Fallible(attempts[|attempts| - 1].result)
    ensures NothingDecisive(attempts, command)
  {
    forall i | 0 <= i < |attempts| ensures Undecisive(attempts[i], command) {
      FallibleUndecisive(attempts[i], command);
    }
  }

  /** Two remote attempts at most, then at most one local run. The local run is made exactly after two attempts that
      were each unavailable or limited and five readings of a signal that had not aborted; then no attempt received a
      decisive record. Otherwise the answer is 75 for an abort, or what the last attempt is worth. */
  method RunCloudChecks(job: Job, transport: Transport, local: Local, signal: Signal) returns (code: int)
    requires transport.Valid() && local.Valid() && signal.Valid()
    requires transport.attempts == [] && local.runs == [] && signal.readings == []
    modifies transport, local, signal
    ensures transport.Valid() && local.Valid() && signal.Valid()
    ensures |transport.attempts| <= 2 && Retried(transport.attempts, job.command)
    ensures local.runs == [] || local.runs == [code]
    ensures local.runs != [] <==>
      Failing(transport.attempts, job.command, 2) && |signal.readings| == 5 && true !in signal.readings
    ensures local.runs != [] ==> NothingDecisive(transport.attempts, job.command)
    ensures local.runs == [] && true in signal.readings ==> code == 75
    ensures local.runs == [] && true !in signal.readings ==> Settled(transport.attempts, job, code)
  {
    code := RunAttempts(job, transport, local, signal);
    if local.runs == [] && true !in signal.readings { WorthSettles(transport.attempts, job, code); }
  }

  lemma WorthSettles(attempts: seq<Attempt>, job: Job, code: int)
    requires Retried(attempts, job.command) && Worth(attempts, job, code)
    ensures Settled(attempts, job, code)
  {
    GradeAnswers(attempts[|attempts| - 1], job);
  }

  method RunAttempts(job: Job, transport: Transport, local: Local, signal: Signal) returns (code: int)
    requires transport.Valid() && local.Valid() && signal.Valid()
    requires transport.attempts == [] && local.runs == [] && signal.readings == []
    modifies transport, local, signal
    ensures transport.Valid() && local.Valid() && signal.Valid()
    ensures |transport.attempts| <= 2 && Retried(transport.attempts, job.command)
    ensures local.runs == [] || local.runs == [code]
    ensures local.runs != [] <==>
      Failing(transport.attempts, job.command, 2) && |signal.readings| == 5 && true !in signal.readings
    ensures local.runs != [] ==> NothingDecisive(transport.attempts, job.command)
    ensures local.runs == [] && true in signal.readings ==> code == 75
    ensures local.runs == [] && true !in signal.readings ==> Worth(transport.attempts, job, code)
  {
    for attempt := 0 to 2
      invariant transport.Valid() && local.Valid() && signal.Valid() && local.runs == []
      invariant Failing(transport.attempts, job.command, attempt)
      invariant |signal.readings| == 2 * attempt && true !in signal.readings
    {
      ghost var was, read := transport.attempts, signal.readings;
      var over := TryOnce(job, transport, signal);
      AfterTry(job, attempt, was, transport.attempts, read, signal.readings, over);
      if over.Some? { return over.value; }
    }
    var aborted := signal.Read();
    if aborted {
      assert signal.readings[4];
      return 75;
    }
    FalliblesDecideNothing(transport.attempts, job.command);
    code := local.Run();
  }

  /** So many attempts were made, and none settled anything. */
  ghost predicate Failing(attempts: seq<Attempt>, command: string, n: nat) {
    |attempts| == n && Retried(attempts, command) && (n > 0 ==> Fallible(attempts[n - 1].result))
  }

  lemma AfterTry(job: Job, n: nat, was: seq<Attempt>, now: seq<Attempt>, read: seq<bool>, after: seq<bool>,
                 over: Option<int>)
    requires read <= after && Tried(job, was, now, read, after, over)
    requires Failing(was, job.command, n) && true !in read
    ensures |now| <= n + 1 && Retried(now, job.command)
    ensures over.None? ==> Failing(now, job.command, n + 1) && |after| == |read| + 2 && true !in after
    ensures over.Some? && true in after ==> over.value == 75
    ensures over.Some? && true !in after ==> Worth(now, job, over.value)
    ensures over.Some? ==> !(Failing(now, job.command, 2) && |after| == 5 && true !in after)
  {
    assert forall b :: b in after <==> b in read || b in after[|read|..];
  }

  /** What one turn of the loop leaves behind: an abort, or one attempt more between two readings, and the answer if
      that attempt settled anything. */
  ghost predicate Tried(job: Job, was: seq<Attempt>, now: seq<Attempt>, read: seq<bool>, after: seq<bool>,
                        over: Option<int>)
    requires |read| <= |after|
  {
    if true in after[|read|..] then over == Some(75) && (now == was || OneMore(job.command, was, now))
    else
      OneMore(job.command, was, now) && after == read + [false, false]
      && var r := now[|now| - 1].result; over == if Fallible(r) then None else Some(Grade(job, r))
  }

  ghost predicate OneMore(command: string, was: seq<Attempt>, now: seq<Attempt>) {
    was < now && |now| == |was| + 1 && Told(now[|was|].log, command, now[|was|].result)
  }

  method TryOnce(job: Job, transport: Transport, signal: Signal) returns (over: Option<int>)
    requires transport.Valid() && signal.Valid()
    modifies transport, signal
    ensures transport.Valid() && signal.Valid() && old(signal.readings) <= signal.readings
    ensures Tried(job, old(transport.attempts), transport.attempts, old(signal.readings), signal.readings, over)
  {
    var aborted := signal.Read();
    assert signal.readings[|old(signal.readings)|..] == [aborted];
    if aborted { return Some(75); }
    var result := transport.Run(job.command);
    ghost var once := aborted;
    aborted := signal.Read();
    assert signal.readings[|old(signal.readings)|..] == [once, aborted];
    if aborted { return Some(75); }
    match result
    case Verdict(_, _) => over := Some(Grade(job, result));
    case AccountLimit => over := Some(75);
    case Invalid => over := Some(1);
    case _ => over := None;
  }
}
