/** The walk behind the fingerprint of installed files: folders, links that leave the tree, and cycles of links. */
module TreeWalk {
  import opened Common

  type Path = string

  datatype Bytes = Bytes(executable: bool, size: nat, content: string)

  /** A folder's children are in the order the walk sorts them; a link knows the real path it resolves to, if any. */
  datatype Node = File(bytes: Bytes) | Folder(children: seq<Child>) | Link(text: string, target: Option<Path>) | Special

  datatype Child = Child(name: string, node: Node)

  /** What every real path leads to. */
  type Disk = map<Path, Node>

  datatype Token = LinkToken(at: string, text: string) | FolderToken(at: string) | FileToken(at: string, bytes: Bytes)

  datatype Error = TooManyEntries | TooManyBytes | BrokenLink | Unsupported

  datatype Walk = Walk(seen: set<Path>, tokens: seq<Token>, entries: nat, bytes: nat, error: Option<Error>)

  const ENTRIES := 100_000
  const BYTES := 0x8000_0000

  function FilesIn(n: Node): set<Bytes> {
    match n
    case File(b) => {b}
    case Folder(children) => set i, b | 0 <= i < |children| && b in FilesIn(children[i].node) :: b
    case _ => {}
  }

  function LinksIn(n: Node): set<Path> {
    match n
    case Link(_, Some(t)) => {t}
    case Folder(children) => set i, t | 0 <= i < |children| && t in LinksIn(children[i].node) :: t
    case _ => {}
  }

  function Hashed(tokens: seq<Token>): set<Bytes> {
    set t | t in tokens && t.FileToken? :: t.bytes
  }

  /** No entry of an unsupported kind and no link that leads nowhere. */
  predicate Sound(disk: Disk, n: Node) {
    match n
    case File(_) => true
    case Folder(children) => forall i :: 0 <= i < |children| ==> Sound(disk, children[i].node)
    case Link(_, target) => target.Some? && target.value in disk
    case Special => false
  }

  /** How many bytes the hashed files have. */
  function Weight(tokens: seq<Token>): nat {
    if tokens == [] then 0
    else
      var last := tokens[|tokens| - 1];
      Weight(tokens[..|tokens| - 1]) + if last.FileToken? then last.bytes.size else 0
  }

  lemma WeightOn(tokens: seq<Token>, t: Token)
    ensures Weight(tokens + [t]) == Weight(tokens) + if t.FileToken? then t.bytes.size else 0
  {
    assert (tokens + [t])[..|tokens|] == tokens;
  }

  /** What a walk sees: every entry under its name, and behind a link what it leads to, where that is taken up. */
  datatype View = FileView(bytes: Bytes) | FolderView(branches: seq<Branch>) | LinkView(text: string, behind: Option<View>)

  datatype Branch = Branch(name: string, view: View)

  predicate Shows(disk: Disk, v: View, n: Node)
    decreases v
  {
    match n
    case File(b) => v == FileView(b)
    case Folder(children) =>
      && v.FolderView? && |v.branches| == |children|
      && forall i :: 0 <= i < |children| ==>
           v.branches[i].name == children[i].name && Shows(disk, v.branches[i].view, children[i].node)
    case Link(text, target) =>
      && v.LinkView? && v.text == text && target.Some?
      && (v.behind.Some? ==> target.value in disk && Shows(disk, v.behind.value, disk[target.value]))
    case Special => false
  }

  /** A view listed from the top, each folder before its entries and each link before what is behind it. */
  function Listing(v: View, at: string): (tokens: seq<Token>)
    ensures tokens != [] && tokens[0].at == at
    decreases v
  {
    match v
    case FileView(b) => [FileToken(at, b)]
    case FolderView(branches) => [FolderToken(at)] + Listings(branches, at)
    case LinkView(text, behind) => [LinkToken(at, text)] + if behind.Some? then Listing(behind.value, at) else []
  }

  function Listings(branches: seq<Branch>, at: string): seq<Token>
    decreases branches
  {
    if branches == [] then []
    else Listing(branches[0].view, at + "/" + branches[0].name) + Listings(branches[1..], at)
  }

  lemma {:induction false} ListingsOn(branches: seq<Branch>, b: Branch, at: string)
    ensures Listings(branches + [b], at) == Listings(branches, at) + Listing(b.view, at + "/" + b.name)
    decreases |branches|
  {
    var all := branches + [b];
    if branches == [] {
      assert all[1..] == [];
    } else {
      assert all[1..] == branches[1..] + [b];
      ListingsOn(branches[1..], b, at);
    }
  }

  /** Names hold no slash and are different within a folder. */
  predicate Named(v: View)
    decreases v
  {
    match v
    case FileView(_) => true
    case FolderView(branches) => NamedAll(branches)
    case LinkView(_, behind) => behind.Some? ==> Named(behind.value)
  }

  predicate NamedAll(branches: seq<Branch>)
    decreases branches
  {
    branches != [] ==>
      && '/' !in branches[0].name && Named(branches[0].view) && NamedAll(branches[1..])
      && forall i :: 0 < i < |branches| ==> branches[i].name != branches[0].name
  }

  /** A place is this one or below it. */
  predicate Under(place: string, at: string) { place == at || at + "/" <= place }

  /** What comes after a place is not under it. */
  predicate Past(rest: seq<Token>, at: string) { rest != [] ==> !Under(rest[0].at, at) }

  predicate PastEntries(rest: seq<Token>, at: string) { rest != [] ==> !(at + "/" <= rest[0].at) }

  /** An entry is under another of its folder only if it has the same name, or a slash in its own. */
  lemma EntriesApart(at: string, name: string, other: string)
    ensures Under(at + "/" + other, at + "/" + name) ==> other == name || '/' in other
  {
    var place, next := at + "/" + name, at + "/" + other;
    if next == place {
      assert next[|at| + 1..] == other && place[|at| + 1..] == name;
    } else if place + "/" <= next {
      assert next[|place|] == other[|name|];
    }
  }

  lemma UnderEntry(place: string, at: string, name: string)
    ensures Under(place, at + "/" + name) ==> at + "/" <= place
  {
  }

  /** After one entry comes another of the same folder, or what is not in the folder. */
  lemma SiblingPast(branches: seq<Branch>, rest: seq<Token>, at: string, name: string)
    requires NamedAll(branches) && PastEntries(rest, at) && '/' !in name
    requires forall i :: 0 <= i < |branches| ==> branches[i].name != name
    ensures Past(Listings(branches, at) + rest, at + "/" + name)
  {
    if branches != [] {
      assert (Listings(branches, at) + rest)[0].at == at + "/" + branches[0].name;
      EntriesApart(at, name, branches[0].name);
    } else if rest != [] {
      UnderEntry(rest[0].at, at, name);
    }
  }

  /** A listing and what follows it can be told apart, and the listing tells the view. */
  lemma {:induction false} ListingTells(v: View, w: View, at: string, rest: seq<Token>, other: seq<Token>)
    requires Named(v) && Named(w) && Past(rest, at) && Past(other, at)
    requires Listing(v, at) + rest == Listing(w, at) + other
    ensures v == w && rest == other
    decreases v
  {
    assert (Listing(v, at) + rest)[0] == Listing(v, at)[0] && (Listing(w, at) + other)[0] == Listing(w, at)[0];
    assert (Listing(v, at) + rest)[1..] == Listing(v, at)[1..] + rest;
    assert (Listing(w, at) + other)[1..] == Listing(w, at)[1..] + other;
    match v
    case FileView(_) =>
    case FolderView(branches) =>
      ListingsTell(branches, w.branches, at, rest, other);
    case LinkView(_, behind) =>
      if behind.Some? && w.behind.Some? {
        ListingTells(behind.value, w.behind.value, at, rest, other);
      }
  }

  /** A list of entries does not look like what comes after one. */
  lemma EntriesFirst(branches: seq<Branch>, rest: seq<Token>, at: string)
    ensures branches == [] || !PastEntries(Listings(branches, at) + rest, at)
    ensures Listings([], at) + rest == rest
  {
    if branches != [] { assert (Listings(branches, at) + rest)[0].at == at + "/" + branches[0].name; }
  }

  lemma {:induction false} ListingsTell(a: seq<Branch>, b: seq<Branch>, at: string, rest: seq<Token>, other: seq<Token>)
    requires NamedAll(a) && NamedAll(b) && PastEntries(rest, at) && PastEntries(other, at)
    requires Listings(a, at) + rest == Listings(b, at) + other
    ensures a == b && rest == other
    decreases a
  {
    EntriesFirst(a, rest, at);
    EntriesFirst(b, other, at);
    if a != [] && b != [] {
      var first, second := at + "/" + a[0].name, at + "/" + b[0].name;
      assert (Listings(a, at) + rest)[0].at == first && (Listings(b, at) + other)[0].at == second;
      assert first[|at| + 1..] == a[0].name && second[|at| + 1..] == b[0].name;
      SiblingPast(a[1..], rest, at, a[0].name);
      SiblingPast(b[1..], other, at, b[0].name);
      AppendTwice(Listing(a[0].view, first), Listings(a[1..], at), rest);
      AppendTwice(Listing(b[0].view, second), Listings(b[1..], at), other);
      ListingTells(a[0].view, b[0].view, first, Listings(a[1..], at) + rest, Listings(b[1..], at) + other);
      ListingsTell(a[1..], b[1..], at, rest, other);
      assert a == [a[0]] + a[1..] && b == [b[0]] + b[1..];
    }
  }

  /** Two walks that hash the same have seen the same: every name, content, permission and link text, and the same
      behind every link. */
  lemma SameHashSameView(v: View, w: View, at: string)
    requires Named(v) && Named(w) && Listing(v, at) == Listing(w, at)
    ensures v == w
  {
    assert Listing(v, at) + [] == Listing(v, at) && Listing(w, at) + [] == Listing(w, at);
    ListingTells(v, w, at, [], []);
  }

  /** A set of real paths that holds the targets of the links in everything it leads to. */
  predicate Closed(disk: Disk, c: set<Path>) {
    forall t :: t in c && t in disk ==> LinksIn(disk[t]) <= c
  }

  /** Everything the walk took up between two moments is complete: its files are hashed, its links taken up, and all
      of it can be hashed. */
  ghost predicate Complete(disk: Disk, before: set<Path>, after: Walk) {
    forall t :: t in after.seen && t !in before ==>
      t in disk && FilesIn(disk[t]) <= Hashed(after.tokens) && LinksIn(disk[t]) <= after.seen && Sound(disk, disk[t])
  }

  /** A file of these, or of something taken up. */
  ghost predicate Met(disk: Disk, files: set<Bytes>, before: Walk, after: Walk, b: Bytes) {
    b in files || exists t :: t in after.seen && t !in before.seen && t in disk && b in FilesIn(disk[t])
  }

  /** And none of it was made up: only what links lead to is taken up, and only files met on the way are hashed. */
  ghost predicate Honest(disk: Disk, files: set<Bytes>, links: set<Path>, before: Walk, after: Walk) {
    && (forall c :: Closed(disk, c) && links <= c ==> after.seen - before.seen <= c)
    && (forall b :: b in Hashed(after.tokens) ==> b in Hashed(before.tokens) || Met(disk, files, before, after, b))
  }

  ghost predicate Grows(before: Walk, after: Walk) {
    before.seen <= after.seen && Hashed(before.tokens) <= Hashed(after.tokens)
  }

  /** The counters of a walk that has met no fault, `ahead` entries before their tokens. */
  ghost predicate Kept(w: Walk, ahead: nat) {
    w.error.None? && w.entries == |w.tokens| + ahead <= ENTRIES && w.bytes == Weight(w.tokens) <= BYTES
  }

  /** Why a walk was given up: one entry too many, one file too large, or something that cannot be hashed. */
  ghost predicate Refused(disk: Disk, files: set<Bytes>, sound: bool, before: Walk, after: Walk) {
    match after.error
    case None => false
    case Some(TooManyEntries) => |after.tokens| == ENTRIES
    case Some(TooManyBytes) => exists b :: Met(disk, files, before, after, b) && Weight(after.tokens) + b.size > BYTES
    case Some(_) =>
      !sound || exists t :: t in after.seen && t !in before.seen && t in disk && !Sound(disk, disk[t])
  }

  /** What a stretch of the walk leaves behind: all of it seen, or the reason why not. */
  ghost predicate Covered(disk: Disk, files: set<Bytes>, links: set<Path>, sound: bool, before: Walk, after: Walk) {
    && Grows(before, after) && Honest(disk, files, links, before, after)
    && if after.error.None? then
         Kept(after, 0) && files <= Hashed(after.tokens) && links <= after.seen && sound
         && Complete(disk, before.seen, after)
       else Refused(disk, files, sound, before, after)
  }

  lemma FewerUnseen(disk: Disk, small: set<Path>, large: set<Path>)
    requires small <= large
    ensures |disk.Keys - large| <= |disk.Keys - small|
    ensures forall t :: t in disk && t !in small && t in large ==> |disk.Keys - large| < |disk.Keys - small|
  {
    var a, b := disk.Keys - large, disk.Keys - small;
    assert b == a + (b - a) && a !! (b - a);
    forall t | t in disk && t !in small && t in large ensures |a| < |b| { assert t in b - a; }
  }

  lemma TokenHashed(tokens: seq<Token>, t: Token)
    ensures Hashed(tokens + [t]) == Hashed(tokens) + if t.FileToken? then {t.bytes} else {}
    ensures Weight(tokens + [t]) == Weight(tokens) + if t.FileToken? then t.bytes.size else 0
  {
    assert forall u :: u in tokens + [t] <==> u in tokens || u == t;
    WeightOn(tokens, t);
  }

  /** One entry, then whatever lies below or behind it. */
  method Visit(disk: Disk, node: Node, at: string, w: Walk) returns (r: Walk, ghost view: View)
    requires Kept(w, 0)
    ensures Covered(disk, FilesIn(node), LinksIn(node), Sound(disk, node), w, r)
    ensures r.error.None? ==> Shows(disk, view, node) && r.tokens == w.tokens + Listing(view, at)
    decreases |disk.Keys - w.seen|, node, 2
  {
    r := w.(entries := w.entries + 1);
    if r.entries > ENTRIES {
      r, view := r.(error := Some(TooManyEntries)), LinkView("", None);
      GivenUp(disk, node, w, r);
      return;
    }
    ghost var entered := r;
    r, view := VisitKind(disk, node, at, r);
    Entered(disk, FilesIn(node), LinksIn(node), Sound(disk, node), w, entered, r);
  }

  method VisitKind(disk: Disk, node: Node, at: string, w: Walk) returns (r: Walk, ghost view: View)
    requires Kept(w, 1)
    ensures Covered(disk, FilesIn(node), LinksIn(node), Sound(disk, node), w, r)
    ensures r.error.None? ==> Shows(disk, view, node) && r.tokens == w.tokens + Listing(view, at)
    decreases |disk.Keys - w.seen|, node, 1
  {
    match node
    case Link(_, _) =>
      r, view := VisitLink(disk, node, at, w);
    case Folder(_) =>
      r, view := VisitChildren(disk, node, at, w);
    case File(bytes) =>
      r := VisitFile(disk, bytes, at, w);
      view := FileView(bytes);
    case Special =>
      r, view := w.(error := Some(Unsupported)), LinkView("", None);
      GivenUp(disk, node, w, r);
  }

  /** An entry that was not begun: one too many, or nothing that can be hashed. */
  lemma GivenUp(disk: Disk, node: Node, w: Walk, r: Walk)
    requires r.seen == w.seen && r.tokens == w.tokens
    requires if r.error == Some(TooManyEntries) then |w.tokens| == ENTRIES
             else r.error == Some(Unsupported) && !Sound(disk, node)
    ensures Covered(disk, FilesIn(node), LinksIn(node), Sound(disk, node), w, r)
  {
    assert w.seen - w.seen == {};
  }

  /** Counting an entry changes nothing of what a stretch of the walk leaves behind. */
  lemma Entered(disk: Disk, files: set<Bytes>, links: set<Path>, sound: bool, w: Walk, entered: Walk, r: Walk)
    requires entered.seen == w.seen && entered.tokens == w.tokens
    requires Covered(disk, files, links, sound, entered, r)
    ensures Covered(disk, files, links, sound, w, r)
  {
    forall b ensures Met(disk, files, w, r, b) <==> Met(disk, files, entered, r, b) { }
  }

  method VisitFile(disk: Disk, bytes: Bytes, at: string, w: Walk) returns (r: Walk)
    requires Kept(w, 1)
    ensures Covered(disk, {bytes}, {}, true, w, r)
    ensures r.error.None? ==> r.tokens == w.tokens + [FileToken(at, bytes)]
  {
    r := w.(bytes := w.bytes + bytes.size);
    if r.bytes > BYTES {
      r := r.(error := Some(TooManyBytes));
      assert Met(disk, {bytes}, w, r, bytes);
      return;
    }
    TokenHashed(w.tokens, FileToken(at, bytes));
    r := r.(tokens := r.tokens + [FileToken(at, bytes)]);
  }

  /** A link's text is hashed; its target is taken up unless it was before. */
  method VisitLink(disk: Disk, node: Node, at: string, w: Walk) returns (r: Walk, ghost view: View)
    requires node.Link? && Kept(w, 1)
    ensures Covered(disk, {}, LinksIn(node), Sound(disk, node), w, r)
    ensures r.error.None? ==> Shows(disk, view, node) && r.tokens == w.tokens + Listing(view, at)
    decreases |disk.Keys - w.seen|, node, 0
  {
    TokenHashed(w.tokens, LinkToken(at, node.text));
    r, view := w.(tokens := w.tokens + [LinkToken(at, node.text)]), LinkView(node.text, None);
    if node.target.None? || node.target.value !in disk {
      r := r.(error := Some(BrokenLink));
      return;
    }
    var target := node.target.value;
    if target in r.seen { return; }
    FewerUnseen(disk, w.seen, w.seen + {target});
    var inside := r.(seen := r.seen + {target});
    ghost var behind;
    r, behind := Visit(disk, disk[target], at, inside);
    view := LinkView(node.text, Some(behind));
    Followed(disk, target, w, inside, r);
    if r.error.None? { AppendTwice(w.tokens, [LinkToken(at, node.text)], Listing(behind, at)); }
  }

  /** What was found behind a link counts for the link. */
  lemma Followed(disk: Disk, target: Path, w: Walk, inside: Walk, r: Walk)
    requires target in disk && target !in w.seen && inside.seen == w.seen + {target}
    requires Hashed(inside.tokens) == Hashed(w.tokens)
    requires Covered(disk, FilesIn(disk[target]), LinksIn(disk[target]), Sound(disk, disk[target]), inside, r)
    ensures Covered(disk, {}, {target}, true, w, r)
  {
    assert target in r.seen;
    forall c | Closed(disk, c) && {target} <= c ensures r.seen - w.seen <= c {
      assert target in c;
      assert LinksIn(disk[target]) <= c;
      assert r.seen - inside.seen <= c;
    }
    forall b | Met(disk, FilesIn(disk[target]), inside, r, b) ensures Met(disk, {}, w, r, b) { }
    if r.error == Some(TooManyBytes) {
      var b :| Met(disk, FilesIn(disk[target]), inside, r, b) && Weight(r.tokens) + b.size > BYTES;
      assert Met(disk, {}, w, r, b);
    }
  }

  function FilesOf(children: seq<Child>): set<Bytes> {
    set i, b | 0 <= i < |children| && b in FilesIn(children[i].node) :: b
  }

  function LinksOf(children: seq<Child>): set<Path> {
    set i, t | 0 <= i < |children| && t in LinksIn(children[i].node) :: t
  }

  predicate SoundAll(disk: Disk, children: seq<Child>) {
    forall i :: 0 <= i < |children| ==> Sound(disk, children[i].node)
  }

  lemma OneMoreChild(disk: Disk, children: seq<Child>, i: nat)
    requires i < |children|
    ensures FilesOf(children[..i + 1]) == FilesOf(children[..i]) + FilesIn(children[i].node)
    ensures LinksOf(children[..i + 1]) == LinksOf(children[..i]) + LinksIn(children[i].node)
    ensures SoundAll(disk, children[..i + 1]) <==> SoundAll(disk, children[..i]) && Sound(disk, children[i].node)
  {
    var before, after := children[..i], children[..i + 1];
    assert after[i] == children[i] && forall k :: 0 <= k < i ==> after[k] == before[k];
    forall b | b in FilesOf(before) + FilesIn(children[i].node) ensures b in FilesOf(after) {
      if b in FilesIn(children[i].node) { assert b in FilesIn(after[i].node); }
      else { var k :| 0 <= k < |before| && b in FilesIn(before[k].node); assert b in FilesIn(after[k].node); }
    }
    forall t | t in LinksOf(before) + LinksIn(children[i].node) ensures t in LinksOf(after) {
      if t in LinksIn(children[i].node) { assert t in LinksIn(after[i].node); }
      else { var k :| 0 <= k < |before| && t in LinksIn(before[k].node); assert t in LinksIn(after[k].node); }
    }
  }

  /** A folder's entries, in the order they are sorted in. */
  method VisitChildren(disk: Disk, node: Node, at: string, w: Walk) returns (r: Walk, ghost view: View)
    requires node.Folder? && Kept(w, 1)
    ensures Covered(disk, FilesIn(node), LinksIn(node), Sound(disk, node), w, r)
    ensures r.error.None? ==> Shows(disk, view, node) && r.tokens == w.tokens + Listing(view, at)
    decreases |disk.Keys - w.seen|, node, 0, 1
  {
    r, view := w.(tokens := w.tokens + [FolderToken(at)]), FolderView([]);
    FolderEntered(disk, at, w);
    var children := node.children;
    ghost var branches: seq<Branch> := [];
    for i := 0 to |children|
      invariant r.error.None? && ChildrenSeen(disk, children[..i], branches, at, w, r)
    {
      FewerUnseen(disk, w.seen, r.seen);
      r, branches := VisitNext(disk, node, i, at, w, r, branches);
      if r.error.Some? { return; }
    }
    view := FolderView(branches);
    FolderLeft(disk, node, branches, at, w, r);
  }

  lemma FolderEntered(disk: Disk, at: string, w: Walk)
    requires Kept(w, 1)
    ensures ChildrenSeen(disk, [], [], at, w, w.(tokens := w.tokens + [FolderToken(at)]))
  {
    TokenHashed(w.tokens, FolderToken(at));
  }

  lemma FolderLeft(disk: Disk, node: Node, branches: seq<Branch>, at: string, w: Walk, r: Walk)
    requires node.Folder? && r.error.None?
    requires ChildrenSeen(disk, node.children[..|node.children|], branches, at, w, r)
    ensures Covered(disk, FilesIn(node), LinksIn(node), Sound(disk, node), w, r)
    ensures Shows(disk, FolderView(branches), node) && r.tokens == w.tokens + Listing(FolderView(branches), at)
  {
    NoMoreChildren(disk, node);
    assert node.children[..|node.children|] == node.children;
    AppendTwice(w.tokens, [FolderToken(at)], Listings(branches, at));
  }

  /** A folder's first entries were seen. */
  ghost predicate ChildrenSeen(disk: Disk, children: seq<Child>, branches: seq<Branch>, at: string, w: Walk, r: Walk) {
    && Covered(disk, FilesOf(children), LinksOf(children), SoundAll(disk, children), w, r)
    && ShowAll(disk, branches, children) && r.tokens == w.tokens + [FolderToken(at)] + Listings(branches, at)
  }

  /** One entry more of a folder. */
  method VisitNext(disk: Disk, node: Node, i: nat, at: string, ghost w: Walk, m: Walk, ghost branches: seq<Branch>)
    returns (r: Walk, ghost more: seq<Branch>)
    requires node.Folder? && i < |node.children|
    requires m.error.None? && ChildrenSeen(disk, node.children[..i], branches, at, w, m)
    ensures if r.error.None? then ChildrenSeen(disk, node.children[..i + 1], more, at, w, r)
            else Covered(disk, FilesIn(node), LinksIn(node), Sound(disk, node), w, r)
    decreases |disk.Keys - m.seen|, node, 0, 0
  {
    ghost var seen;
    r, seen := Visit(disk, node.children[i].node, at + "/" + node.children[i].name, m);
    more := branches + [Branch(node.children[i].name, seen)];
    NextSeen(disk, node, i, at, w, m, r, branches, seen);
  }

  lemma NextSeen(disk: Disk, node: Node, i: nat, at: string, w: Walk, m: Walk, r: Walk, branches: seq<Branch>,
                 seen: View)
    requires node.Folder? && i < |node.children|
    requires m.error.None? && ChildrenSeen(disk, node.children[..i], branches, at, w, m)
    requires var child := node.children[i];
      && Covered(disk, FilesIn(child.node), LinksIn(child.node), Sound(disk, child.node), m, r)
      && (r.error.None? ==>
            Shows(disk, seen, child.node) && r.tokens == m.tokens + Listing(seen, at + "/" + child.name))
    ensures if r.error.None? then
        ChildrenSeen(disk, node.children[..i + 1], branches + [Branch(node.children[i].name, seen)], at, w, r)
      else Covered(disk, FilesIn(node), LinksIn(node), Sound(disk, node), w, r)
  {
    var child := node.children[i];
    OneMoreChild(disk, node.children, i);
    Joined(disk, w, m, r, node.children[..i], child, node.children[..i + 1]);
    if r.error.Some? { PartOf(disk, node, i + 1, w, r); }
    else { ListedNext(disk, node, i, at, w.tokens, m.tokens, branches, seen); }
  }

  lemma ListedNext(disk: Disk, node: Node, i: nat, at: string, before: seq<Token>, mid: seq<Token>,
                   branches: seq<Branch>, seen: View)
    requires node.Folder? && i < |node.children| && ShowAll(disk, branches, node.children[..i])
    requires Shows(disk, seen, node.children[i].node)
    requires mid == before + [FolderToken(at)] + Listings(branches, at)
    ensures var more := branches + [Branch(node.children[i].name, seen)];
      && ShowAll(disk, more, node.children[..i + 1])
      && mid + Listing(seen, at + "/" + node.children[i].name)
         == before + [FolderToken(at)] + Listings(more, at)
  {
    ListingsOn(branches, Branch(node.children[i].name, seen), at);
    AppendTwice(before + [FolderToken(at)], Listings(branches, at), Listing(seen, at + "/" + node.children[i].name));
  }

  ghost predicate ShowAll(disk: Disk, branches: seq<Branch>, children: seq<Child>) {
    |branches| == |children| && forall i :: 0 <= i < |children| ==>
      branches[i].name == children[i].name && Shows(disk, branches[i].view, children[i].node)
  }

  lemma NoMoreChildren(disk: Disk, node: Node)
    requires node.Folder?
    ensures var all := node.children[..|node.children|];
      FilesOf(all) == FilesIn(node) && LinksOf(all) == LinksIn(node) && (SoundAll(disk, all) <==> Sound(disk, node))
  {
    assert node.children[..|node.children|] == node.children;
  }

  /** Two stretches of the walk, one after the other. */
  lemma Joined(disk: Disk, w: Walk, m: Walk, r: Walk, children: seq<Child>, child: Child, all: seq<Child>)
    requires m.error.None?
    requires Covered(disk, FilesOf(children), LinksOf(children), SoundAll(disk, children), w, m)
    requires Covered(disk, FilesIn(child.node), LinksIn(child.node), Sound(disk, child.node), m, r)
    requires FilesOf(all) == FilesOf(children) + FilesIn(child.node)
    requires LinksOf(all) == LinksOf(children) + LinksIn(child.node)
    requires SoundAll(disk, all) <==> SoundAll(disk, children) && Sound(disk, child.node)
    ensures Covered(disk, FilesOf(all), LinksOf(all), SoundAll(disk, all), w, r)
  {
    forall c | Closed(disk, c) && LinksOf(all) <= c ensures r.seen - w.seen <= c {
      assert m.seen - w.seen <= c && r.seen - m.seen <= c;
    }
    forall b | Met(disk, FilesOf(children), w, m, b) || Met(disk, FilesIn(child.node), m, r, b)
      ensures Met(disk, FilesOf(all), w, r, b) { }
    if r.error == Some(TooManyBytes) {
      var b :| Met(disk, FilesIn(child.node), m, r, b) && Weight(r.tokens) + b.size > BYTES;
      assert Met(disk, FilesOf(all), w, r, b);
    }
  }

  /** What was refused in a part of a folder is refused in all of it. */
  lemma PartOf(disk: Disk, node: Node, i: nat, w: Walk, r: Walk)
    requires node.Folder? && i <= |node.children| && r.error.Some?
    requires var part := node.children[..i]; Covered(disk, FilesOf(part), LinksOf(part), SoundAll(disk, part), w, r)
    ensures Covered(disk, FilesIn(node), LinksIn(node), Sound(disk, node), w, r)
  {
    var part := node.children[..i];
    assert forall k :: 0 <= k < i ==> part[k] == node.children[k];
    assert FilesOf(part) <= FilesIn(node) && LinksOf(part) <= LinksIn(node);
    forall b | Met(disk, FilesOf(part), w, r, b) ensures Met(disk, FilesIn(node), w, r, b) { }
    if r.error == Some(TooManyBytes) {
      var b :| Met(disk, FilesOf(part), w, r, b) && Weight(r.tokens) + b.size > BYTES;
      assert Met(disk, FilesIn(node), w, r, b);
    }
  }

  /** The files reached from a node through folders and links: its own, and those of every real path that each closed
      set with its links must hold. */
  ghost predicate Reached(disk: Disk, root: Node, b: Bytes) {
    b in FilesIn(root) || exists t :: t in disk && LinkedTo(disk, root, t) && b in FilesIn(disk[t])
  }

  ghost predicate LinkedTo(disk: Disk, root: Node, t: Path) {
    forall c: set<Path> :: Closed(disk, c) && LinksIn(root) <= c ==> t in c
  }

  /** Everything that can be reached can be hashed. */
  ghost predicate AllSound(disk: Disk, root: Node) {
    Sound(disk, root) && forall t :: t in disk && LinkedTo(disk, root, t) ==> Sound(disk, disk[t])
  }

  /** These are hashed, each of them reached, and the limit leaves no room for what comes next. */
  ghost predicate Overrun(disk: Disk, root: Node, tokens: seq<Token>) {
    && (forall b :: b in Hashed(tokens) ==> Reached(disk, root, b))
    && (|tokens| == ENTRIES || exists b :: Reached(disk, root, b) && Weight(tokens) + b.size > BYTES)
  }

  /** The walk ends on any graph of links. What it hashes is the listing of a view of the root, with exactly the files
      that can be reached; it hashes nothing exactly where something reached cannot be hashed, or a limit is passed. */
  method TreeFingerprint(disk: Disk, root: Option<Node>, at: string)
    returns (tokens: Option<seq<Token>>, ghost view: View, ghost hashed: seq<Token>)
    ensures root.None? ==> tokens == Some([])
    ensures root.Some? && tokens.Some? ==>
      && Shows(disk, view, root.value) && tokens.value == Listing(view, at) && AllSound(disk, root.value)
      && |tokens.value| <= ENTRIES && Weight(tokens.value) <= BYTES
    ensures root.Some? && tokens.Some? ==> forall b :: b in Hashed(tokens.value) <==> Reached(disk, root.value, b)
    ensures root.Some? && tokens.None? ==> !AllSound(disk, root.value) || Overrun(disk, root.value, hashed)
  {
    view, hashed := LinkView("", None), [];
    if root.None? { return Some([]), view, hashed; }
    var start := Walk({}, [], 0, 0, None);
    var w;
    w, view := Visit(disk, root.value, at, start);
    hashed := w.tokens;
    OnlyReached(disk, root.value, start, w);
    if w.error.Some? {
      FaultReached(disk, root.value, start, w);
      return None, view, hashed;
    }
    tokens := Some(w.tokens);
    assert start.tokens + Listing(view, at) == Listing(view, at);
    AllReached(disk, root.value, start, w);
  }

  /** What was taken up is linked to from the root. */
  lemma SeenLinked(disk: Disk, root: Node, start: Walk, w: Walk, t: Path)
    requires start.seen == {} && Honest(disk, FilesIn(root), LinksIn(root), start, w) && t in w.seen
    ensures LinkedTo(disk, root, t)
  {
    forall c: set<Path> | Closed(disk, c) && LinksIn(root) <= c ensures t in c {
      assert w.seen - start.seen <= c;
    }
  }

  lemma MetReached(disk: Disk, root: Node, start: Walk, w: Walk, b: Bytes)
    requires start.seen == {} && Honest(disk, FilesIn(root), LinksIn(root), start, w)
    requires Met(disk, FilesIn(root), start, w, b)
    ensures Reached(disk, root, b)
  {
    if b !in FilesIn(root) {
      var t :| t in w.seen && t !in start.seen && t in disk && b in FilesIn(disk[t]);
      SeenLinked(disk, root, start, w, t);
    }
  }

  lemma OnlyReached(disk: Disk, root: Node, start: Walk, w: Walk)
    requires start.seen == {} && start.tokens == [] && Honest(disk, FilesIn(root), LinksIn(root), start, w)
    ensures forall b :: b in Hashed(w.tokens) ==> Reached(disk, root, b)
  {
    forall b | b in Hashed(w.tokens) ensures Reached(disk, root, b) { MetReached(disk, root, start, w, b); }
  }

  lemma FaultReached(disk: Disk, root: Node, start: Walk, w: Walk)
    requires start.seen == {} && start.tokens == [] && Honest(disk, FilesIn(root), LinksIn(root), start, w)
    requires Refused(disk, FilesIn(root), Sound(disk, root), start, w)
    ensures !AllSound(disk, root) || Overrun(disk, root, w.tokens)
  {
    OnlyReached(disk, root, start, w);
    match w.error
    case Some(TooManyEntries) =>
    case Some(TooManyBytes) =>
      var b :| Met(disk, FilesIn(root), start, w, b) && Weight(w.tokens) + b.size > BYTES;
      MetReached(disk, root, start, w, b);
    case None =>
    case Some(_) =>
      if Sound(disk, root) {
        var t :| t in w.seen && t !in start.seen && t in disk && !Sound(disk, disk[t]);
        SeenLinked(disk, root, start, w, t);
      }
  }

  lemma AllReached(disk: Disk, root: Node, start: Walk, w: Walk)
    requires start.seen == {} && start.tokens == [] && w.error.None?
    requires Covered(disk, FilesIn(root), LinksIn(root), Sound(disk, root), start, w)
    ensures AllSound(disk, root) && forall b :: b in Hashed(w.tokens) <==> Reached(disk, root, b)
  {
    assert Closed(disk, w.seen);
    OnlyReached(disk, root, start, w);
    forall b | Reached(disk, root, b) && b !in FilesIn(root) ensures b in Hashed(w.tokens) {
      var t :| t in disk && LinkedTo(disk, root, t) && b in FilesIn(disk[t]);
      assert t in w.seen;
    }
    forall t | t in disk && LinkedTo(disk, root, t) ensures Sound(disk, disk[t]) { assert t in w.seen; }
  }
}
