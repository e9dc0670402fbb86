/** The gate's bounded on-disk cache, one file a key. */
module GateCache {
  import opened Common
  import opened Ordering

  const RECORD_LIMIT := 0x10_0000
  const CACHE_LIMIT := 0x200_0000
  const KEPT := 255

  /** A record's file is named by the hash of its key; `Partial` files are unfinished writes. */
  datatype Slot = Of(key: string) | Partial(id: nat)

  datatype Content<V> = Record(key: string, value: V) | Corrupt

  datatype File<V> = File(content: Content<V>, time: int, size: nat)

  type Files<V> = map<Slot, File<V>>

  /** Where a write may fail. */
  datatype Fault = Never | Listing | Evicting(files: nat) | Publishing

  datatype Written = Stored | TooLarge | Failed

  function TimeOf<V>(files: Files<V>, s: Slot): int { if s in files then files[s].time else 0 }

  /** Newest first, ties by name. */
  function NewestFirst<V>(files: Files<V>, byName: (Slot, Slot) -> bool): (Slot, Slot) -> bool {
    (a: Slot, b: Slot) =>
      TimeOf(files, a) > TimeOf(files, b) || (TimeOf(files, a) == TimeOf(files, b) && byName(a, b))
  }

  function SizeOf<V>(order: seq<Slot>, files: Files<V>): nat
    requires forall s :: s in order ==> s in files
  {
    if order == [] then 0 else SizeOf(order[1..], files) + files[order[0]].size
  }

  ghost predicate Enumerates<V>(order: seq<Slot>, files: Files<V>) {
    NoRepeat(order) && forall s :: s in order <==> s in files
  }

  /** The files are at most so many and hold at most so many bytes. */
  ghost predicate Bounded<V>(files: Files<V>, count: int, bytes: int) {
    exists order :: Enumerates(order, files) && |order| <= count && SizeOf(order, files) <= bytes
  }

  function Dropping(order: seq<Slot>, gone: Slot): seq<Slot> {
    if order == [] then []
    else if order[0] == gone then Dropping(order[1..], gone)
    else [order[0]] + Dropping(order[1..], gone)
  }

  lemma {:induction false} DroppingHolds<V>(order: seq<Slot>, gone: Slot, files: Files<V>, after: Files<V>)
    requires NoRepeat(order) && (forall s :: s in order ==> s in files)
    requires forall s :: s in files && s != gone ==> s in after && after[s] == files[s]
    ensures forall s :: s in Dropping(order, gone) <==> s in order && s != gone
    ensures NoRepeat(Dropping(order, gone)) && |Dropping(order, gone)| <= |order|
    ensures SizeOf(Dropping(order, gone), after) <= SizeOf(order, files)
  {
    if order != [] {
      DroppingHolds(order[1..], gone, files, after);
      assert order == [order[0]] + order[1..];
      var rest := Dropping(order[1..], gone);
      assert ([order[0]] + rest)[1..] == rest;
      if order[0] != gone { NoRepeatWith(rest, order[0]); }
    }
  }

  /** Replacing or adding one file costs at most one file and its bytes. */
  lemma BoundedPut<V>(files: Files<V>, s: Slot, file: File<V>, count: int, bytes: int)
    requires Bounded(files, count, bytes)
    ensures Bounded(files[s := file], count + 1, bytes + file.size)
  {
    var order :| Enumerates(order, files) && |order| <= count && SizeOf(order, files) <= bytes;
    var after := files[s := file];
    DroppingHolds(order, s, files, after);
    var order' := [s] + Dropping(order, s);
    assert order'[1..] == Dropping(order, s);
    NoRepeatWith(Dropping(order, s), s);
    assert Enumerates(order', after);
  }

  lemma {:induction false} SizeAppend<V>(order: seq<Slot>, s: Slot, files: Files<V>)
    requires s in files && forall t :: t in order ==> t in files
    ensures forall t :: t in order + [s] ==> t in files
    ensures SizeOf(order + [s], files) == SizeOf(order, files) + files[s].size
  {
    if order != [] {
      assert (order + [s])[1..] == order[1..] + [s];
      SizeAppend(order[1..], s, files);
    }
  }

  lemma {:induction false} SizeSame<V>(order: seq<Slot>, files: Files<V>, after: Files<V>)
    requires forall s :: s in order ==> s in files && s in after && files[s] == after[s]
    ensures SizeOf(order, files) == SizeOf(order, after)
  {
    if order != [] { SizeSame(order[1..], files, after); }
  }

  lemma NewestFirstOrder<V>(files: Files<V>, byName: (Slot, Slot) -> bool)
    requires TotalPreorder(byName)
    ensures TotalPreorder(NewestFirst(files, byName))
  {
    var le := NewestFirst(files, byName);
    forall a: Slot, b: Slot ensures le(a, b) || le(b, a) { assert byName(a, b) || byName(b, a); }
    forall a: Slot, b: Slot, c: Slot | le(a, b) && le(b, c) ensures le(a, c) {
      assert byName(a, b) && byName(b, c) ==> byName(a, c);
    }
  }

  /** `readdirSync`: every file once, in any order. */
  method List<V>(files: Files<V>) returns (listing: seq<Slot>)
    ensures Enumerates(listing, files)
  {
    listing := [];
    var todo := files.Keys;
    while todo != {}
      invariant NoRepeat(listing) && todo <= files.Keys
      invariant forall s :: s in listing <==> s in files && s !in todo
    {
      var s :| s in todo;
      listing := listing + [s];
      todo := todo - {s};
    }
  }

  /** Whether the file at this place of the newest-first listing stays beside a new record of `size` bytes. */
  predicate Stays<V>(files: Files<V>, order: seq<Slot>, i: nat, size: nat, now: int, maxAge: int)
    requires i < |order| && forall s :: s in order ==> s in files
  {
    i < KEPT && size + SizeOf(order[..i + 1], files) <= CACHE_LIMIT && now - files[order[i]].time <= maxAge
  }

  /** What a write leaves of the old files: exactly those that stay, unchanged. */
  ghost predicate RoomFor<V>(files: Files<V>, order: seq<Slot>, after: Files<V>, size: nat, now: int, maxAge: int,
                             byName: (Slot, Slot) -> bool) {
    RoomUpto(files, order, |order|, after, size, now, maxAge, byName)
  }

  /** And what is left when only the first `n` of the listing were looked at: of those exactly the ones that stay. */
  ghost predicate RoomUpto<V>(files: Files<V>, order: seq<Slot>, n: nat, after: Files<V>, size: nat, now: int,
                              maxAge: int, byName: (Slot, Slot) -> bool) {
    && n <= |order| && Enumerates(order, files) && Sorted(NewestFirst(files, byName), order)
    && (forall s :: s in after ==> s in files && after[s] == files[s])
    && (forall i :: 0 <= i < n ==> (order[i] in after <==> Stays(files, order, i, size, now, maxAge)))
    && (forall i :: n <= i < |order| ==> order[i] in after)
  }

  lemma {:induction false} SizeGrows<V>(order: seq<Slot>, i: nat, j: nat, files: Files<V>)
    requires i <= j <= |order| && forall s :: s in order ==> s in files
    ensures SizeOf(order[..i], files) <= SizeOf(order[..j], files)
    decreases j
  {
    if i < j {
      SizeGrows(order, i, j - 1, files);
      assert order[..j] == order[..j - 1] + [order[j - 1]];
      SizeAppend(order[..j - 1], order[j - 1], files);
    }
  }

  /** Room is made oldest first: what stays is young enough, and no older than anything young that was removed. */
  lemma OldestFirst<V>(files: Files<V>, order: seq<Slot>, after: Files<V>, size: nat, now: int, maxAge: int,
                       byName: (Slot, Slot) -> bool,
                       kept: Slot, gone: Slot)
    requires RoomFor(files, order, after, size, now, maxAge, byName)
    requires kept in after && gone in files && gone !in after && now - files[gone].time <= maxAge
    ensures now - files[kept].time <= maxAge && files[kept].time >= files[gone].time
    ensures files[kept].time == files[gone].time ==> byName(kept, gone)
  {
    var i: nat :| i < |order| && order[i] == kept;
    var j: nat :| j < |order| && order[j] == gone;
    if j < i { StaysEarlier(files, order, j, i, size, now, maxAge); }
    assert i < j;
    Earlier(files, byName, order, i, j);
  }

  lemma Earlier<V>(files: Files<V>, byName: (Slot, Slot) -> bool, order: seq<Slot>, i: nat, j: nat)
    requires i < j < |order| && Sorted(NewestFirst(files, byName), order)
    ensures TimeOf(files, order[i]) >= TimeOf(files, order[j])
    ensures TimeOf(files, order[i]) == TimeOf(files, order[j]) ==> byName(order[i], order[j])
  {
    var le := NewestFirst(files, byName);
    assert le(order[i], order[j]);
  }

  lemma StaysEarlier<V>(files: Files<V>, order: seq<Slot>, j: nat, i: nat, size: nat, now: int, maxAge: int)
    requires j < i < |order| && (forall s :: s in order ==> s in files)
    requires Stays(files, order, i, size, now, maxAge) && now - files[order[j]].time <= maxAge
    ensures Stays(files, order, j, size, now, maxAge)
  {
    SizeGrows(order, j + 1, i + 1, files);
  }

  lemma {:induction false} DroppingOne<V>(order: seq<Slot>, gone: Slot, files: Files<V>)
    requires NoRepeat(order) && gone in order && forall s :: s in order ==> s in files
    ensures var rest := Dropping(order, gone);
      && |rest| == |order| - 1 && (forall s :: s in rest ==> s in files)
      && SizeOf(rest, files) == SizeOf(order, files) - files[gone].size
  {
    DroppingHolds(order, gone, files, files);
    var rest := Dropping(order[1..], gone);
    assert ([order[0]] + rest)[1..] == rest;
    if order[0] == gone {
      DroppingNone(order[1..], gone);
    } else {
      DroppingOne(order[1..], gone, files);
    }
  }

  lemma {:induction false} DroppingNone(order: seq<Slot>, gone: Slot)
    requires gone !in order
    ensures Dropping(order, gone) == order
  {
    if order != [] { DroppingNone(order[1..], gone); }
  }

  /** Fewer files are not more, and not larger together. */
  lemma {:induction false} Fewer<V>(few: seq<Slot>, many: seq<Slot>, files: Files<V>)
    requires NoRepeat(few) && NoRepeat(many) && (forall s :: s in few ==> s in many) && forall s :: s in many ==> s in files
    ensures |few| <= |many| && SizeOf(few, files) <= SizeOf(many, files)
    decreases |few|
  {
    if few != [] {
      var rest := Dropping(many, few[0]);
      DroppingHolds(many, few[0], files, files);
      DroppingOne(many, few[0], files);
      forall s | s in few[1..] ensures s in rest { assert s != few[0]; }
      Fewer(few[1..], rest, files);
    }
  }

  /** These are, each once, the files at least as new as this one, or those newer. */
  ghost predicate AsNew<V>(files: Files<V>, s: Slot, these: seq<Slot>, newer: bool)
    requires s in files
  {
    && NoRepeat(these)
    && forall t :: t in these <==>
         t in files && if newer then files[t].time > files[s].time else files[t].time >= files[s].time
  }

  /** A young file stays if it and all that are as new are at most 255 and fit 32 MiB together with the new record. */
  lemma RoomStays<V>(files: Files<V>, order: seq<Slot>, after: Files<V>, size: nat, now: int, maxAge: int,
                     byName: (Slot, Slot) -> bool, s: Slot, these: seq<Slot>)
    requires RoomFor(files, order, after, size, now, maxAge, byName) && s in files && now - files[s].time <= maxAge
    requires AsNew(files, s, these, false) && |these| <= 255 && size + SizeOf(these, files) <= 32 * 1024 * 1024
    ensures s in after
  {
    var i: nat :| i < |order| && order[i] == s;
    FirstAsNew(files, order, byName, i, these);
    Fewer(order[..i + 1], these, files);
  }

  lemma FirstAsNew<V>(files: Files<V>, order: seq<Slot>, byName: (Slot, Slot) -> bool, i: nat, these: seq<Slot>)
    requires i < |order| && Enumerates(order, files) && Sorted(NewestFirst(files, byName), order)
    requires AsNew(files, order[i], these, false)
    ensures forall s :: s in order[..i + 1] ==> s in these
  {
    var first := order[..i + 1];
    forall j | 0 <= j < |first| ensures first[j] in these {
      assert first[j] == order[j] && order[j] in order;
      if j < i { Earlier(files, byName, order, j, i); }
    }
  }

  /** And it stays only if it is young, and it and all that are newer are at most 255 and fit so. */
  lemma OnlyRoomStays<V>(files: Files<V>, order: seq<Slot>, after: Files<V>, size: nat, now: int, maxAge: int,
                         byName: (Slot, Slot) -> bool, s: Slot, newer: seq<Slot>)
    requires RoomFor(files, order, after, size, now, maxAge, byName) && s in after && AsNew(files, s, newer, true)
    ensures now - files[s].time <= maxAge && |newer| < 255
    ensures size + SizeOf(newer, files) + files[s].size <= 32 * 1024 * 1024
  {
    var i: nat :| i < |order| && order[i] == s;
    forall t | t in newer ensures t in order[..i] {
      var j: nat :| j < |order| && order[j] == t;
      if i < j { Earlier(files, byName, order, i, j); }
      assert j < i && order[..i][j] == t;
    }
    Fewer(newer, order[..i], files);
    NextSize(order, i, files);
  }

  function KeptOf<V>(files: Files<V>, order: seq<Slot>, i: nat, size: nat, now: int, maxAge: int): seq<Slot>
    requires i <= |order| && forall s :: s in order ==> s in files
    decreases i
  {
    if i == 0 then []
    else if Stays(files, order, i - 1, size, now, maxAge) then
      KeptOf(files, order, i - 1, size, now, maxAge) + [order[i - 1]]
    else KeptOf(files, order, i - 1, size, now, maxAge)
  }

  lemma {:induction false} KeptHolds<V>(files: Files<V>, order: seq<Slot>, i: nat, size: nat, now: int, maxAge: int)
    requires i <= |order| && NoRepeat(order) && forall s :: s in order ==> s in files
    ensures var kept := KeptOf(files, order, i, size, now, maxAge);
      && (forall s :: s in kept ==> s in order[..i])
      && (forall k :: 0 <= k < i ==> (order[k] in kept <==> Stays(files, order, k, size, now, maxAge)))
    decreases i
  {
    if i > 0 {
      KeptHolds(files, order, i - 1, size, now, maxAge);
      assert order[..i] == order[..i - 1] + [order[i - 1]];
      assert order[i - 1] !in order[..i - 1];
    }
  }

  lemma {:induction false} KeptFits<V>(files: Files<V>, order: seq<Slot>, i: nat, size: nat, now: int, maxAge: int)
    requires i <= |order| && size <= CACHE_LIMIT && forall s :: s in order ==> s in files
    ensures var kept := KeptOf(files, order, i, size, now, maxAge);
      && |kept| <= i && |kept| <= KEPT && (forall s :: s in kept ==> s in files)
      && SizeOf(kept, files) <= SizeOf(order[..i], files) && size + SizeOf(kept, files) <= CACHE_LIMIT
    decreases i
  {
    if i > 0 {
      KeptFits(files, order, i - 1, size, now, maxAge);
      assert order[..i] == order[..i - 1] + [order[i - 1]];
      SizeAppend(order[..i - 1], order[i - 1], files);
      SizeAppend(KeptOf(files, order, i - 1, size, now, maxAge), order[i - 1], files);
    }
  }

  /** The first `i` files are divided into kept and removed. */
  ghost predicate Divided(order: seq<Slot>, i: nat, kept: seq<Slot>, removed: set<Slot>)
    requires i <= |order|
  {
    && NoRepeat(kept) && |kept| <= i
    && (forall s :: s in kept || s in removed <==> s in order[..i])
    && (forall s :: s in kept ==> s !in removed)
  }

  lemma DividedStep(order: seq<Slot>, i: nat, kept: seq<Slot>, removed: set<Slot>)
    requires i < |order| && NoRepeat(order) && Divided(order, i, kept, removed)
    ensures Divided(order, i + 1, kept + [order[i]], removed)
    ensures Divided(order, i + 1, kept, removed + {order[i]})
  {
    assert order[..i + 1] == order[..i] + [order[i]];
    assert order[i] !in order[..i];
    NoRepeatWith(kept, order[i]);
  }

  lemma NextSize<V>(order: seq<Slot>, i: nat, files: Files<V>)
    requires i < |order| && forall s :: s in order ==> s in files
    ensures SizeOf(order[..i + 1], files) == SizeOf(order[..i], files) + files[order[i]].size
  {
    assert order[..i + 1] == order[..i] + [order[i]];
    SizeAppend(order[..i], order[i], files);
  }

  method Evict<V>(files: Files<V>, order: seq<Slot>, size: nat, now: int, maxAge: int, byName: (Slot, Slot) -> bool,
                  stopAt: Option<nat>)
    returns (after: Files<V>, done: bool)
    requires Enumerates(order, files) && Sorted(NewestFirst(files, byName), order) && size <= CACHE_LIMIT
    ensures done <==> stopAt.None? || stopAt.value >= |order|
    ensures RoomUpto(files, order, if done then |order| else stopAt.value, after, size, now, maxAge, byName)
    ensures done ==> Bounded(after, KEPT, CACHE_LIMIT - size)
  {
    var bytes: nat, removed: set<Slot> := size, {};
    ghost var kept: seq<Slot> := [];
    for i := 0 to |order|
      invariant Evicting(files, order, i, kept, removed, bytes, size, now, maxAge)
      invariant stopAt.Some? ==> i <= stopAt.value
    {
      if stopAt == Some(i) {
        EvictedUpto(files, order, i, kept, removed, size, now, maxAge, byName);
        return files - removed, false;
      }
      var slot := order[i];
      EvictStep(files, order, i, kept, removed, bytes, size, now, maxAge);
      bytes := bytes + files[slot].size;
      if i >= KEPT || bytes > CACHE_LIMIT || now - files[slot].time > maxAge {
        removed := removed + {slot};
      } else {
        kept := kept + [slot];
      }
    }
    after, done := files - removed, true;
    EvictedUpto(files, order, |order|, kept, removed, size, now, maxAge, byName);
    EvictedRoom(files, order, after, kept, removed, size, now, maxAge, byName);
  }

  ghost predicate Evicting<V>(files: Files<V>, order: seq<Slot>, i: nat, kept: seq<Slot>, removed: set<Slot>,
                              bytes: nat, size: nat, now: int, maxAge: int)
    requires i <= |order| && forall s :: s in order ==> s in files
  {
    && Divided(order, i, kept, removed) && bytes == size + SizeOf(order[..i], files)
    && kept == KeptOf(files, order, i, size, now, maxAge)
  }

  lemma EvictStep<V>(files: Files<V>, order: seq<Slot>, i: nat, kept: seq<Slot>, removed: set<Slot>, bytes: nat,
                     size: nat, now: int, maxAge: int)
    requires i < |order| && NoRepeat(order) && forall s :: s in order ==> s in files
    requires Evicting(files, order, i, kept, removed, bytes, size, now, maxAge)
    ensures var more := bytes + files[order[i]].size;
      if i >= KEPT || more > CACHE_LIMIT || now - files[order[i]].time > maxAge then
        Evicting(files, order, i + 1, kept, removed + {order[i]}, more, size, now, maxAge)
      else Evicting(files, order, i + 1, kept + [order[i]], removed, more, size, now, maxAge)
  {
    DividedStep(order, i, kept, removed);
    NextSize(order, i, files);
  }

  lemma EvictedUpto<V>(files: Files<V>, order: seq<Slot>, n: nat, kept: seq<Slot>, removed: set<Slot>, size: nat,
                       now: int, maxAge: int, byName: (Slot, Slot) -> bool)
    requires n <= |order| && Enumerates(order, files) && Sorted(NewestFirst(files, byName), order)
    requires Divided(order, n, kept, removed) && kept == KeptOf(files, order, n, size, now, maxAge)
    ensures RoomUpto(files, order, n, files - removed, size, now, maxAge, byName)
  {
    KeptHolds(files, order, n, size, now, maxAge);
    forall i | 0 <= i < |order| ensures order[i] in order[..n] <==> i < n {
      if i < n { assert order[..n][i] == order[i]; }
    }
  }

  lemma EvictedRoom<V>(files: Files<V>, order: seq<Slot>, after: Files<V>, kept: seq<Slot>, removed: set<Slot>,
                       size: nat, now: int,
                       maxAge: int, byName: (Slot, Slot) -> bool)
    requires Enumerates(order, files) && Sorted(NewestFirst(files, byName), order) && size <= CACHE_LIMIT
    requires Divided(order, |order|, kept, removed) && kept == KeptOf(files, order, |order|, size, now, maxAge)
    requires after == files - removed
    ensures Bounded(after, KEPT, CACHE_LIMIT - size)
  {
    KeptHolds(files, order, |order|, size, now, maxAge);
    KeptFits(files, order, |order|, size, now, maxAge);
    assert order[..|order|] == order;
    forall s ensures s in kept <==> s in after {
      assert s in order <==> s in files;
    }
    SizeSame(kept, files, after);
    assert Enumerates(kept, after);
  }

  class Cache<V(!new)> {
    const valid: V -> bool
    const maxAge: int
    const byName: (Slot, Slot) -> bool
    const sizeOf: (string, V) -> nat
    var files: Files<V>
    ghost var stored: map<string, V>

    constructor (valid: V -> bool, maxAge: int, byName: (Slot, Slot) -> bool, sizeOf: (string, V) -> nat)
      requires TotalPreorder(byName)
      ensures Valid() && files == map[] && stored == map[]
      ensures this.valid == valid && this.maxAge == maxAge && this.byName == byName && this.sizeOf == sizeOf
    {
      this.valid, this.maxAge, this.byName, this.sizeOf := valid, maxAge, byName, sizeOf;
      files, stored := map[], map[];
    }

    /** Any intact record under a key is the last value stored under it. */
    ghost predicate Valid()
      reads this
    {
      TotalPreorder(byName) && Truthful(files, stored)
    }

    static ghost predicate Truthful(files: Files<V>, stored: map<string, V>) {
      forall k :: Of(k) in files && files[Of(k)].content.Record? && files[Of(k)].content.key == k ==>
        k in stored && files[Of(k)].content.value == stored[k]
    }

    predicate Readable(key: string, now: int)
      reads this
    {
      && Of(key) in files && files[Of(key)].size <= RECORD_LIMIT && now - files[Of(key)].time <= maxAge
      && files[Of(key)].content.Record? && files[Of(key)].content.key == key && valid(files[Of(key)].content.value)
    }

    /** Nothing, or the last value stored under the key; and that value whenever its file is readable. */
    method Read(key: string, now: int) returns (r: Option<V>)
      requires Valid()
      ensures r.Some? <==> Readable(key, now)
      ensures r.Some? <==>
        && Of(key) in files && files[Of(key)].size <= 1024 * 1024 && now - files[Of(key)].time <= maxAge
        && key in stored && files[Of(key)].content == Record(key, stored[key]) && valid(stored[key])
      ensures r.Some? ==> key in stored && r.value == stored[key]
    {
      if Of(key) !in files { return None; }
      var file := files[Of(key)];
      if file.size > RECORD_LIMIT || now - file.time > maxAge { return None; }
      match file.content
      case Corrupt => r := None;
      case Record(k, v) => r := if k == key && valid(v) then Some(v) else None;
    }

    method Remove(key: string)
      requires Valid()
      modifies `files
      ensures Valid() && files == old(files) - {Of(key)}
    {
      files := files - {Of(key)};
    }

    /** Anyone may delete or damage files, touch their times and leave unfinished ones; nobody forges a record. */
    method Disturb(now: Files<V>)
      requires Valid()
      requires forall k :: Of(k) in now && now[Of(k)].content.Record? ==>
        Of(k) in files && files[Of(k)].content == now[Of(k)].content
      modifies `files
      ensures Valid() && files == now
    {
      files := now;
    }

    /** A fault that a write of a fitting record meets: one while evicting only if so many files are there. */
    static predicate Fails(fault: Fault, files: nat) {
      match fault
      case Never => false
      case Evicting(n) => n < files
      case _ => true
    }

    /** Room is made, then the key's file is replaced. */
    ghost predicate Replaces(before: Files<V>, after: Files<V>, key: string, file: File<V>, now: int) {
      exists order, room: Files<V> :: RoomFor(before, order, room, file.size, now, maxAge, byName)
        && after == room[Of(key) := file]
    }

    /** Room was made, as far as the fault let it. */
    ghost predicate Evicted(before: Files<V>, after: Files<V>, fault: Fault, size: nat, now: int) {
      exists order ::
        RoomUpto(before, order, if fault.Evicting? && fault.files < |order| then fault.files else |order|, after, size,
                 now, maxAge, byName)
    }

    method MakeRoom(size: nat, now: int, fault: Fault) returns (after: Files<V>, done: bool)
      requires TotalPreorder(byName) && size <= CACHE_LIMIT
      ensures Evicted(files, after, fault, size, now)
      ensures done <==> !(fault.Evicting? && fault.files < |files|)
      ensures done ==> Bounded(after, KEPT, CACHE_LIMIT - size)
      ensures done ==> exists order :: RoomFor(files, order, after, size, now, maxAge, byName)
    {
      var listing := List(files);
      var le := NewestFirst(files, byName);
      NewestFirstOrder(files, byName);
      SortSorts(le, listing);
      var order := Sort(le, listing);
      SortEnumerates(le, listing, files);
      EnumeratesAll(order, files);
      after, done := Evict(files, order, size, now, maxAge, byName,
        if fault.Evicting? then Some(fault.files) else None);
      assert done ==> RoomFor(files, order, after, size, now, maxAge, byName);
    }

    /** A write either stores the value and leaves the cache within its bounds, or stores nothing;
        what it removes can only turn reads into misses. */
    method Write(key: string, value: V, now: int, fault: Fault) returns (w: Written)
      requires Valid()
      modifies `files, `stored
      ensures Valid() && stored == if w.Stored? then old(stored)[key := value] else old(stored)
      ensures w.TooLarge? <==> sizeOf(key, value) > RECORD_LIMIT
      ensures w.Failed? <==> sizeOf(key, value) <= RECORD_LIMIT && Fails(fault, |old(files)|)
      ensures w.TooLarge? || (w.Failed? && fault == Listing) ==> files == old(files)
      ensures w.Failed? && fault != Listing ==> Evicted(old(files), files, fault, sizeOf(key, value), now)
      ensures w.Stored? ==> Bounded(files, KEPT + 1, CACHE_LIMIT)
      ensures w.Stored? ==> Replaces(old(files), files, key, File(Record(key, value), now, sizeOf(key, value)), now)
    {
      var size := sizeOf(key, value);
      if size > RECORD_LIMIT { return TooLarge; }
      if fault == Listing { return Failed; }
      var after, done := MakeRoom(size, now, fault);
      assert Truthful(after, stored);
      files := after;
      if !done || fault == Publishing { return Failed; }
      var file := File(Record(key, value), now, size);
      BoundedPut(after, Of(key), file, KEPT, CACHE_LIMIT - size);
      files, stored := after[Of(key) := file], stored[key := value];
      w := Stored;
    }

    /** A value just written is what the next read gives, or nothing; except exactly when it was too large and an
        earlier, different one is still readable. */
    method WriteThenRead(key: string, value: V, now: int) returns (r: Option<V>)
      requires Valid()
      modifies `files, `stored
      ensures Valid()
      ensures r.Some? && r.value != value <==>
        sizeOf(key, value) > RECORD_LIMIT && old(Readable(key, now) && stored[key] != value)
    {
      var w := Write(key, value, now, Never);
      r := Read(key, now);
    }
  }

  /** A small value is stored, then one over the limit is refused, and a read gives the small one. */
  method OlderValueRead() returns (cache: Cache<bool>, first: Written, second: Written, r: Option<bool>)
    ensures fresh(cache) && cache.Valid()
    ensures cache.sizeOf("k", true) > RECORD_LIMIT && cache.stored == map["k" := false]
    ensures first == Stored && second == TooLarge && r == Some(false)
  {
    var any: (Slot, Slot) -> bool := (a, b) => true;
    cache := new Cache((v: bool) => true, 0, any, (key: string, v: bool) => if v then RECORD_LIMIT + 1 else 1);
    first := cache.Write("k", false, 0, Never);
    assert Of("k") in cache.files && cache.Readable("k", 0);
    second := cache.Write("k", true, 0, Never);
    r := cache.Read("k", 0);
  }

  lemma EnumeratesAll<V>(order: seq<Slot>, files: Files<V>)
    requires Enumerates(order, files)
    ensures |order| == |files|
  {
    DistinctCount(order, files.Keys);
    assert |files.Keys| == |files|;
  }

  lemma {:induction false} DistinctCount(order: seq<Slot>, all: set<Slot>)
    requires NoRepeat(order) && forall s :: s in order <==> s in all
    ensures |order| == |all|
    decreases |order|
  {
    if order == [] {
      assert all == {};
    } else {
      assert forall s :: s in order[1..] ==> s != order[0];
      DistinctCount(order[1..], all - {order[0]});
    }
  }

  lemma SortEnumerates<V>(le: (Slot, Slot) -> bool, listing: seq<Slot>, files: Files<V>)
    requires TotalPreorder(le) && Enumerates(listing, files)
    ensures Enumerates(Sort(le, listing), files)
  {
    SortSorts(le, listing);
    SameElements(Sort(le, listing), listing);
    SortKeepsDistinct(le, listing);
  }

  lemma SortKeepsDistinct(le: (Slot, Slot) -> bool, s: seq<Slot>)
    requires TotalPreorder(le) && NoRepeat(s)
    ensures NoRepeat(Sort(le, s))
  {
    var r := Sort(le, s);
    SortSorts(le, s);
    NoRepeatCounts(s);
    forall i, j | 0 <= i < j < |r| ensures r[i] != r[j] {
      if r[i] == r[j] { CountedTwice(r, i, j); }
    }
  }
}
