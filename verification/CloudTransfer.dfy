/** The upload loop against a remote thread that runs each submitted command in its own time. */
module CloudTransfer {
  import opened Common
  import opened ShellQuote
  import opened CloudUpload

  datatype Entry = Entry(turn: string, execution: bool, command: string, status: Status, exit: Option<int>)

  /** A record of a command that ran to a successful end. */
  predicate Succeeded(e: Entry) { e.status == Completed && e.exit == Some(0) }

  /** What happens on the remote side before one poll; the end of the list is the deadline. */
  datatype Event =
    | Nothing
    | Ran(actual: string, turn: string)
    | Broke(actual: string, turn: string, status: Status, exit: Option<int>, files: map<string, string>)
    | Other(entry: Entry)
    | Abort
    | Unlisted

  datatype Error = Empty | Unavailable | Refused | Unreadable
  datatype Result = Ok(firstTurn: string) | Err(error: Error)

  /** What the shell's tokens do to the remote files. */
  function Effect(tokens: seq<Token>, files: map<string, string>): map<string, string> {
    if |tokens| == 12 && tokens[7] == Word("printf") && tokens[8] == Word("%s")
       && tokens[9].Word? && tokens[11].Word? then
      var path, data := tokens[11].text, tokens[9].text;
      if tokens[10] == Op(">") then files[path := data]
      else if tokens[10] == Op(">>") then files[path := (if path in files then files[path] else "") + data]
      else files
    else files
  }

  function Run(command: string, files: map<string, string>): map<string, string> {
    var tokens := Tokens(command);
    if tokens.Some? then Effect(tokens.value, files) else files
  }

  lemma RunCommand(directory: string, chunk: string, index: nat, files: map<string, string>)
    ensures Run(Command(directory, chunk, index), files) == var path := Target(directory);
      files[path := (if index > 0 && path in files then files[path] else "") + chunk]
  {
    CommandReads(directory, chunk, index);
    CommandEffect(directory, chunk, index, files);
  }

  lemma CommandEffect(directory: string, chunk: string, index: nat, files: map<string, string>)
    ensures Effect(CommandTokens(directory, chunk, index), files) == var path := Target(directory);
      files[path := (if index > 0 && path in files then files[path] else "") + chunk]
  {
    var path := Target(directory);
    assert (if index > 0 && path in files then files[path] else "") + chunk
      == if index > 0 && path in files then files[path] + chunk else chunk;
    assert "" + chunk == chunk;
  }

  /** A record that could be taken for one of this upload's commands. */
  ghost predicate Ours(directory: string, e: Entry) {
    exists chunk, index :: IsExactCommand(e.command, Command(directory, chunk, index))
  }

  predicate Match(e: Entry, command: string) {
    e.execution && IsExactCommand(e.command, command) && Terminal(e.status)
  }

  class Remote {
    var files: map<string, string>
    var records: seq<Entry>
    var pending: Option<string>

    constructor (files: map<string, string>, records: seq<Entry>)
      ensures this.files == files && this.records == records && pending == None
    {
      this.files, this.records, pending := files, records, None;
    }

    /** The remote side moves: at most the pending command finishes, once, and is recorded under its own text. */
    method Move(event: Event)
      modifies this
      ensures records == old(records) + Recorded(event, old(pending))
      ensures event.Ran? && old(pending).Some? ==> pending == None && files == Run(old(pending).value, old(files))
      ensures event.Broke? && old(pending).Some? ==> pending == None
      ensures (old(pending).None? || !(event.Ran? || event.Broke?)) ==> pending == old(pending) && files == old(files)
    {
      records := records + Recorded(event, pending);
      if pending.Some? {
        match event
        case Ran(_, _) => files, pending := Run(pending.value, files), None;
        case Broke(_, _, _, _, now) => files, pending := now, None;
        case _ =>
      }
    }
  }

  /** The record an event leaves, if any. */
  function Recorded(event: Event, pending: Option<string>): seq<Entry> {
    match event
    case Ran(actual, turn) =>
      if pending.Some? && IsExactCommand(actual, pending.value) then [Entry(turn, true, actual, Completed, Some(0))]
      else []
    case Broke(actual, turn, status, exit, _) =>
      var e := Entry(turn, true, actual, status, exit);
      if pending.Some? && IsExactCommand(actual, pending.value) && !Succeeded(e) then [e]
      else []
    case Other(entry) => [entry]
    case _ => []
  }

  /** The first terminal record of a command. */
  function FirstMatch(records: seq<Entry>, command: string): (r: Option<Entry>)
    ensures r.Some? ==> r.value in records && Match(r.value, command)
    ensures r.None? <==> forall e :: e in records ==> !Match(e, command)
  {
    if records == [] then None
    else if Match(records[0], command) then Some(records[0])
    else FirstMatch(records[1..], command)
  }

  method Find(records: seq<Entry>, command: string) returns (r: Option<Entry>)
    ensures r == FirstMatch(records, command)
  {
    for i := 0 to |records|
      invariant FirstMatch(records[i..], command) == FirstMatch(records, command)
    {
      if Match(records[i], command) { return Some(records[i]); }
      assert records[i..][1..] == records[i + 1..];
    }
    r := None;
  }

  /** A record that lets the upload go on. */
  predicate Accepts(e: Entry) { Succeeded(e) && e.turn != "" }

  /** A record of this command that is at its end. */
  predicate Concludes(e: Entry, command: string) {
    && e.execution && IsExactCommand(e.command, command)
    && (e.status.Completed? || e.status.Failed? || e.status.Declined?)
  }

  /** Here stands the first of them. */
  ghost predicate FirstAt(records: seq<Entry>, command: string, i: nat) {
    i < |records| && Concludes(records[i], command) && forall j :: 0 <= j < i ==> !Concludes(records[j], command)
  }

  /** The first concluding record ran to a successful end in this turn. */
  ghost predicate Went(records: seq<Entry>, command: string, turn: string) {
    turn != "" && exists i: nat ::
      && FirstAt(records, command, i)
      && records[i].status == Completed && records[i].exit == Some(0) && records[i].turn == turn
  }

  /** The first concluding record did not, or names no turn. */
  ghost predicate Failing(records: seq<Entry>, command: string) {
    exists i: nat ::
      && FirstAt(records, command, i)
      && (records[i].status != Completed || records[i].exit != Some(0) || records[i].turn == "")
  }

  /** What a poll answers: the chunk's first concluding record lets the upload go on or refuses it, and while there is
      none the upload waits, unless the records cannot be listed or time is up. */
  ghost predicate Answers(records: seq<Entry>, command: string, r: Result) {
    match r
    case Ok(turn) => Went(records, command, turn)
    case Err(Refused) => Failing(records, command)
    case Err(e) => e != Empty
  }

  lemma {:induction false} FirstIs(records: seq<Entry>, command: string) returns (i: nat)
    requires FirstMatch(records, command).Some?
    ensures FirstAt(records, command, i) && records[i] == FirstMatch(records, command).value
  {
    if Match(records[0], command) {
      i := 0;
    } else {
      i := FirstIs(records[1..], command);
      i := i + 1;
    }
  }

  lemma FirstAnswers(records: seq<Entry>, command: string)
    requires FirstMatch(records, command).Some?
    ensures var e := FirstMatch(records, command).value;
      if Accepts(e) then Went(records, command, e.turn) else Failing(records, command)
  {
    var i := FirstIs(records, command);
  }

  /** What the first concluding record says stays so. */
  lemma WentStays(before: seq<Entry>, after: seq<Entry>, command: string, turn: string)
    requires Went(before, command, turn) && before <= after
    ensures Went(after, command, turn)
  {
    var i: nat :| FirstAt(before, command, i) && before[i].status == Completed && before[i].exit == Some(0)
      && before[i].turn == turn;
    assert FirstAt(after, command, i);
  }

  /** How a wait goes through its events: none aborts it, one that cannot be listed ends it, and it is given up only at
      an abort or the deadline. */
  ghost predicate Waited(events: seq<Event>, rest: seq<Event>, r: Result) {
    && |rest| <= |events| && rest == events[|events| - |rest|..]
    && (forall i :: 0 <= i < |events| - |rest| ==> !events[i].Abort?)
    && (forall i :: 0 <= i < |events| - |rest| && events[i].Unlisted? ==>
          i == |events| - |rest| - 1 && r == Err(Unreadable))
    && (r == Err(Unreadable) ==> |rest| < |events| && events[|events| - |rest| - 1].Unlisted?)
    && (r == Err(Unavailable) ==> rest == [] || rest[0].Abort?)
  }

  /** No event lets an unrelated record pass for one of ours. */
  ghost predicate Honest(directory: string, events: seq<Event>) {
    forall e :: e in events && e.Other? ==> !Ours(directory, e.entry)
  }

  /** Records that claim success name a chunk already in the file, or none of ours. */
  ghost predicate Truthful(directory: string, chunks: seq<string>, done: nat, records: seq<Entry>) {
    done <= |chunks| && forall e :: e in records && Succeeded(e) && Ours(directory, e) ==>
      exists j :: 0 <= j < done && IsExactCommand(e.command, Command(directory, chunks[j], j))
  }

  ghost predicate Holding(directory: string, chunks: seq<string>, done: nat, files: map<string, string>) {
    done <= |chunks| && (done > 0 ==> Target(directory) in files && files[Target(directory)] == Concat(chunks[..done]))
  }

  lemma {:induction false} ConcatSnoc(pieces: seq<string>, last: string)
    ensures Concat(pieces + [last]) == Concat(pieces) + last
  {
    if pieces == [] {
      assert [last][1..] == [];
    } else {
      assert (pieces + [last])[1..] == pieces[1..] + [last];
      ConcatSnoc(pieces[1..], last);
    }
  }

  lemma RanHolds(directory: string, chunks: seq<string>, done: nat, files: map<string, string>)
    requires done < |chunks| && Holding(directory, chunks, done, files)
    ensures Holding(directory, chunks, done + 1, Run(Command(directory, chunks[done], done), files))
  {
    RunCommand(directory, chunks[done], done, files);
    assert chunks[..done + 1] == chunks[..done] + [chunks[done]];
    ConcatSnoc(chunks[..done], chunks[done]);
    assert done == 0 ==> Concat(chunks[..done]) == "";
  }

  /** A chunk's command is pending, or has run (and then the file holds it), or was lost. */
  ghost predicate Underway(directory: string, chunks: seq<string>, index: nat, done: nat, pending: Option<string>,
                           records: seq<Entry>, files: map<string, string>)
    requires index < |chunks|
  {
    && (done == index || done == index + 1) && Truthful(directory, chunks, done, records)
    && (pending.Some? ==> pending.value == Command(directory, chunks[index], index) && done == index)
    && (done == index + 1 || pending.Some? ==> Holding(directory, chunks, done, files))
  }

  method Advance(remote: Remote, ghost directory: string, ghost chunks: seq<string>, ghost index: nat,
                 ghost done: nat, event: Event) returns (ghost now: nat)
    requires index < |chunks| && (event.Other? ==> !Ours(directory, event.entry))
    requires Underway(directory, chunks, index, done, remote.pending, remote.records, remote.files)
    modifies remote
    ensures Underway(directory, chunks, index, now, remote.pending, remote.records, remote.files)
    ensures old(remote.records) <= remote.records && |remote.records| <= |old(remote.records)| + 1
  {
    ghost var before, was := remote.records, remote.pending;
    if event.Ran? && remote.pending.Some? { RanHolds(directory, chunks, index, remote.files); }
    remote.Move(event);
    now := if event.Ran? && was.Some? then index + 1 else done;
    MoveTruthful(directory, chunks, index, now, before, event, was, Command(directory, chunks[index], index));
  }

  /** Polls until this chunk's own record is terminal. `earlier` is what the poll before the last one found. */
  method Await(remote: Remote, directory: string, ghost chunks: seq<string>, index: nat, command: string,
               events: seq<Event>)
    returns (r: Result, rest: seq<Event>, ghost earlier: seq<Entry>)
    requires index < |chunks| && command == Command(directory, chunks[index], index)
    requires remote.pending == Some(command) && Honest(directory, events)
    requires Truthful(directory, chunks, index, remote.records) && Holding(directory, chunks, index, remote.files)
    modifies remote
    ensures r.Ok? ==> Truthful(directory, chunks, index + 1, remote.records)
    ensures r.Ok? ==> Holding(directory, chunks, index + 1, remote.files)
    ensures r.Ok? ==> Honest(directory, rest)
    ensures Answers(remote.records, command, r) && Waited(events, rest, r)
    ensures old(remote.records) <= remote.records && old(remote.records) <= earlier <= remote.records
    ensures |remote.records| <= |earlier| + 1
    ensures old(FirstMatch(remote.records, command)).None? ==> FirstMatch(earlier, command).None?
    ensures r == Err(Unavailable) && old(FirstMatch(remote.records, command)).None? ==>
      FirstMatch(remote.records, command).None?
  {
    rest, earlier := events, remote.records;
    ghost var done := index;
    while rest != []
      invariant Honest(directory, rest) && old(remote.records) <= remote.records && earlier == remote.records
      invariant Waiting(events, rest)
      invariant old(FirstMatch(remote.records, command)).None? ==> FirstMatch(remote.records, command).None?
      invariant Underway(directory, chunks, index, done, remote.pending, remote.records, remote.files)
      decreases |rest|
    {
      if rest[0].Abort? { return Err(Unavailable), rest, earlier; }
      ghost var was := rest;
      var over;
      over, done := Poll(remote, directory, chunks, index, command, done, rest[0]);
      rest := rest[1..];
      WaitedOn(events, was, over);
      if over.Some? { return over.value, rest, earlier; }
      earlier := remote.records;
    }
    r := Err(Unavailable);
  }

  /** The events so far brought neither an abort nor an unreadable list. */
  ghost predicate Waiting(events: seq<Event>, rest: seq<Event>) {
    && |rest| <= |events| && rest == events[|events| - |rest|..]
    && forall i :: 0 <= i < |events| - |rest| ==> !events[i].Abort? && !events[i].Unlisted?
  }

  lemma WaitedOn(events: seq<Event>, rest: seq<Event>, over: Option<Result>)
    requires Waiting(events, rest) && rest != [] && !rest[0].Abort?
    requires rest[0].Unlisted? <==> over == Some(Err(Unreadable))
    requires over != Some(Err(Unavailable))
    ensures if over.None? then Waiting(events, rest[1..]) else Waited(events, rest[1..], over.value)
  {
    assert events[|events| - |rest|] == rest[0];
  }

  /** One event and one look at the records. */
  method Poll(remote: Remote, ghost directory: string, ghost chunks: seq<string>, ghost index: nat, command: string,
              ghost done: nat, event: Event)
    returns (over: Option<Result>, ghost now: nat)
    requires index < |chunks| && command == Command(directory, chunks[index], index)
    requires (event.Other? ==> !Ours(directory, event.entry)) && !event.Abort?
    requires Underway(directory, chunks, index, done, remote.pending, remote.records, remote.files)
    modifies remote
    ensures Underway(directory, chunks, index, now, remote.pending, remote.records, remote.files)
    ensures old(remote.records) <= remote.records && |remote.records| <= |old(remote.records)| + 1
    ensures event.Unlisted? <==> over == Some(Err(Unreadable))
    ensures over.None? ==> FirstMatch(remote.records, command).None?
    ensures over.Some? ==> Answers(remote.records, command, over.value) && over != Some(Err(Unavailable))
    ensures over.Some? && over.value.Ok? ==> now == index + 1
  {
    now := Advance(remote, directory, chunks, index, done, event);
    if event.Unlisted? { return Some(Err(Unreadable)), now; }
    var found := Find(remote.records, command);
    if found.None? { return None, now; }
    FirstAnswers(remote.records, command);
    if !Accepts(found.value) { return Some(Err(Refused)), now; }
    OwnRecord(directory, chunks, index, now, found.value);
    over := Some(Ok(found.value.turn));
  }

  lemma MoveTruthful(directory: string, chunks: seq<string>, index: nat, done: nat, before: seq<Entry>, event: Event,
                     pending: Option<string>, command: string)
    requires index < |chunks| && command == Command(directory, chunks[index], index)
    requires pending.Some? ==> pending.value == command
    requires event.Other? ==> !Ours(directory, event.entry)
    requires index <= done <= index + 1 && (event.Ran? && pending.Some? ==> done == index + 1)
    requires exists was :: index <= was <= done && Truthful(directory, chunks, was, before)
    ensures Truthful(directory, chunks, done, before + Recorded(event, pending))
  {
  }

  /** A successful record of this command is not an earlier chunk's, so this chunk has run. */
  lemma OwnRecord(directory: string, chunks: seq<string>, index: nat, done: nat, e: Entry)
    requires index < |chunks| && (done == index || done == index + 1)
    requires Match(e, Command(directory, chunks[index], index)) && Succeeded(e)
    requires Truthful(directory, chunks, done, [e])
    ensures done == index + 1
  {
    assert Ours(directory, e);
    var j :| 0 <= j < done && IsExactCommand(e.command, Command(directory, chunks[j], j));
    RecordsApart(directory, chunks[j], j, chunks[index], index, e.command);
  }

  /** After a successful upload the remote file is the chunks put together: the bundle itself exactly when it has no
      line terminator; every chunk's first concluding record ran to a successful end, and the turn told is that of the
      first. It is refused by a chunk's record, and given up only at an abort or the deadline. */
  method UploadBundle(remote: Remote, directory: string, bundle: string, events: seq<Event>)
    returns (r: Result, ghost rest: seq<Event>)
    requires remote.pending == None && Honest(directory, events)
    requires forall e :: e in remote.records ==> !Ours(directory, e)
    modifies remote
    ensures r.Ok? ==> Target(directory) in remote.files
    ensures r.Ok? ==> (remote.files[Target(directory)] == bundle <==> forall c :: c in bundle ==> !Terminator(c))
    ensures r.Ok? ==> Chunks(bundle) != [] && Went(remote.records, Command(directory, Chunks(bundle)[0], 0), r.firstTurn)
    ensures r.Ok? ==> AllWent(remote.records, directory, Chunks(bundle), |Chunks(bundle)|)
    ensures r == Err(Empty) <==> forall c :: c in bundle ==> Terminator(c)
    ensures r == Err(Refused) ==> SomeFailing(remote.records, directory, Chunks(bundle))
    ensures GaveUp(events, rest, r)
  {
    var chunks := Chunks(bundle);
    NoChunksIff(bundle);
    rest := events;
    if chunks == [] { return Err(Empty), rest; }
    r, rest := SendAll(remote, directory, chunks, events);
    assert chunks[..|chunks|] == chunks;
    ChunksMakeBundleIff(bundle);
  }

  ghost predicate SomeFailing(records: seq<Entry>, directory: string, chunks: seq<string>) {
    exists i: nat :: i < |chunks| && Failing(records, Command(directory, chunks[i], i))
  }

  /** An upload is given up at an abort or the deadline, or where the records could not be listed. */
  ghost predicate GaveUp(events: seq<Event>, rest: seq<Event>, r: Result) {
    && (forall e :: e in rest ==> e in events)
    && (r == Err(Unavailable) ==> rest == [] || rest[0].Abort?)
    && (r == Err(Unreadable) ==> Unlisted in events)
  }

  method SendAll(remote: Remote, directory: string, chunks: seq<string>, events: seq<Event>)
    returns (r: Result, rest: seq<Event>)
    requires chunks != [] && Honest(directory, events) && forall e :: e in remote.records ==> !Ours(directory, e)
    modifies remote
    ensures r.Ok? ==>
      Progress(remote.records, remote.files, directory, chunks, |chunks|, r.firstTurn)
    ensures r != Err(Empty) && GaveUp(events, rest, r)
    ensures r == Err(Refused) ==> SomeFailing(remote.records, directory, chunks)
  {
    var first := "";
    rest := events;
    for index := 0 to |chunks|
      invariant Progress(remote.records, remote.files, directory, chunks, index, first)
      invariant Honest(directory, rest) && forall e :: e in rest ==> e in events
    {
      r, rest, first := SendChunk(remote, directory, chunks, index, first, rest);
      if r.Err? { return; }
    }
    r := Ok(first);
  }

  /** So many chunks are in the file, each by its own record, and the first of these is of the first turn. */
  ghost predicate Progress(records: seq<Entry>, files: map<string, string>, directory: string, chunks: seq<string>,
                           index: nat, first: string) {
    && Truthful(directory, chunks, index, records) && Holding(directory, chunks, index, files)
    && AllWent(records, directory, chunks, index)
    && if index == 0 then first == "" else Went(records, Command(directory, chunks[0], 0), first)
  }

  /** Submits one chunk's command and waits for its record. */
  method SendChunk(remote: Remote, directory: string, chunks: seq<string>, index: nat, first: string,
                   events: seq<Event>)
    returns (r: Result, rest: seq<Event>, turn: string)
    requires index < |chunks| && Honest(directory, events)
    requires Progress(remote.records, remote.files, directory, chunks, index, first)
    modifies remote
    ensures r.Ok? ==> Progress(remote.records, remote.files, directory, chunks, index + 1, turn)
    ensures r.Ok? ==> Honest(directory, rest)
    ensures r != Err(Empty) && forall e :: e in rest ==> e in events
    ensures r == Err(Refused) ==> Failing(remote.records, Command(directory, chunks[index], index))
    ensures r == Err(Unavailable) ==> rest == [] || rest[0].Abort?
    ensures r == Err(Unreadable) ==> Unlisted in events
    ensures events == [] || events[0].Abort? ==> r.Err? && remote.pending == old(remote.pending)
  {
    rest, turn := events, first;
    if events == [] || events[0].Abort? { return Err(Unavailable), rest, turn; }
    var command := Command(directory, chunks[index], index);
    remote.pending := Some(command);
    ghost var records, earlier := remote.records, [];
    r, rest, earlier := Await(remote, directory, chunks, index, command, events);
    if r.Err? { return; }
    if first == "" { turn := r.firstTurn; }
    ProgressOn(records, remote.records, directory, chunks, index, first, r.firstTurn);
  }

  /** Each of the first chunks went. */
  ghost predicate AllWent(records: seq<Entry>, directory: string, chunks: seq<string>, n: nat) {
    n <= |chunks| && forall i: nat :: i < n ==> ChunkWent(records, directory, chunks[i], i)
  }

  ghost predicate ChunkWent(records: seq<Entry>, directory: string, chunk: string, i: nat) {
    exists turn :: Went(records, Command(directory, chunk, i), turn)
  }

  lemma ProgressOn(before: seq<Entry>, after: seq<Entry>, directory: string, chunks: seq<string>, index: nat,
                   first: string, turn: string)
    requires AllWent(before, directory, chunks, index) && before <= after && index < |chunks|
    requires if index == 0 then first == "" else Went(before, Command(directory, chunks[0], 0), first)
    requires Went(after, Command(directory, chunks[index], index), turn)
    ensures AllWent(after, directory, chunks, index + 1)
    ensures Went(after, Command(directory, chunks[0], 0), if first == "" then turn else first)
  {
    forall i: nat | i < index ensures ChunkWent(after, directory, chunks[i], i) {
      assert ChunkWent(before, directory, chunks[i], i);
      var was :| Went(before, Command(directory, chunks[i], i), was);
      WentStays(before, after, Command(directory, chunks[i], i), was);
    }
    if index > 0 { WentStays(before, after, Command(directory, chunks[0], 0), first); }
  }

  lemma {:induction false} NoChunksIff(text: string)
    ensures Chunks(text) == [] <==> forall c :: c in text ==> Terminator(c)
    decreases |text|
  {
    if text != "" {
      assert text == [text[0]] + text[1..];
      if RunLength(text, CHUNK) == 0 { NoChunksIff(text[1..]); }
    }
  }
}
