/** Flattening a tree, streaming it and writing it down again gives the tree back: Tree.dfy,
    Transfer.dfy and Paths.dfy put together (crates/ud-engine/src/transfer.rs:47-218,
    crates/ud-engine/src/engine.rs:1983-2028, 2103-2193, 2473-2538). */
module Rebuild {
  import opened Wrappers
  import opened Codec
  import opened Paths
  import opened Transfer
  import opened Tree
  import D = Delivery
  import opened Placing

  /** One tree sent, under one id, into one directory of a disk. */
  datatype Job = Job(id: U64, nodes: seq<Node>, base: Disk, root: Path, overwrite: bool) {
    function Located(): seq<Tree.Located> {
      Preorder(nodes, [])
    }

    function Files(): (files: seq<OutgoingFile>)
      ensures |files| == |Located()|
    {
      Offer(Located())
    }

    function Entries(): (entries: seq<FileEntry>)
      ensures |entries| == |Located()|
    {
      seq(|Files()|, k requires 0 <= k < |Files()| => Files()[k].entry)
    }

    /** Where entry `k` belongs. */
    function Dest(k: nat): Path
      requires k < |Located()|
    {
      root + Located()[k].path
    }

    predicate IsDir(k: nat)
      requires k < |Located()|
    {
      Located()[k].node.Dir?
    }
  }

  /** The root is an empty directory, as is everything above it, and nothing is both a file and a
      directory. */
  predicate FreshRoot(base: Disk, root: Path) {
    && Prefixes(root) <= base.dirs && ".." !in root
    && (forall p :: p in base.dirs ==> p !in base.files)
    && (forall p :: p in base.dirs ==> !(root < p))
    && (forall p :: p in base.files ==> !(root < p))
  }

  /** Every entry can be put where it belongs: a directory where no file is, and a file where no directory is, nor a
      file unless files are overwritten. */
  predicate FitsOnto(job: Job) {
    && Prefixes(job.root) <= job.base.dirs && ".." !in job.root
    && (forall p :: p in job.base.dirs ==> p !in job.base.files)
    && (forall k :: 0 <= k < |job.Located()| ==>
          if job.IsDir(k) then job.Dest(k) !in job.base.files
          else job.Dest(k) !in job.base.dirs && (job.overwrite || job.Dest(k) !in job.base.files))
  }

  /** What the round trip needs of a tree: names the walk accepts and the receiver can resolve, no two
      siblings alike, and numbers that fit their fields. */
  predicate SendableTree(job: Job) {
    && Collectable(job.nodes) && DistinctNames(job.nodes)
    && |job.Located()| <= INDICES && Transfer.Sendable(job.Files())
    && (forall located :: located in job.Located() ==> !HasColon(located.path))
  }

  predicate Sendable(job: Job) {
    SendableTree(job) && FitsOnto(job)
  }

  lemma {:induction false} OfferedNamesAreSafe(nodes: seq<Node>, prefix: seq<string>)
    requires Collectable(nodes) && AllSafe(prefix)
    ensures forall located :: located in Preorder(nodes, prefix) ==> AllSafe(located.path)
    decreases nodes
  {
    if nodes != [] {
      OfferedNamesAreSafe(nodes[1..], prefix);
      if nodes[0].Dir? { OfferedNamesAreSafe(nodes[0].children, prefix + [nodes[0].name]); }
    }
  }

  /** The receiver resolves every offered path to where it belongs. */
  lemma OfferedPathsResolve(job: Job, k: nat)
    requires Sendable(job) && k < |job.Located()|
    ensures SanitizeRelative(job.Entries()[k].relativePath, job.root) == Ok(job.Dest(k))
    ensures job.Located()[k].path != []
  {
    var located := job.Located()[k];
    assert located in job.Located();
    OfferedNamesAreSafe(job.nodes, []);
    OfferListsTheTree(job.nodes, k);
    OfferedPathsAreAcceptedIffNoColon(located.path, job.root);
  }

  lemma DestinationsDiffer(job: Job, i: nat, j: nat)
    requires Sendable(job) && i < |job.Located()| && j < |job.Located()| && i != j
    ensures job.Dest(i) != job.Dest(j)
  {
    OfferListsTheTree(job.nodes, i);
    assert job.Dest(i)[|job.root|..] == job.Located()[i].path;
    assert job.Dest(j)[|job.root|..] == job.Located()[j].path;
  }

  /** The directories among the first `n` entries. */
  function DirDests(job: Job, n: nat): set<Path>
    requires n <= |job.Located()|
  {
    set k | 0 <= k < n && job.IsDir(k) :: job.Dest(k)
  }

  /** Every directory an entry lies in is there from the start or is offered before the entry. */
  lemma {:induction false} AncestorsComeFirst(job: Job, k: nat, p: Path)
    requires Sendable(job) && k < |job.Located()| && p < job.Dest(k)
    ensures p in job.base.dirs + DirDests(job, k)
    decreases k
  {
    var path := job.Located()[k].path;
    OfferedPathsResolve(job, k);
    OfferListsTheTree(job.nodes, k);
    if |p| <= |job.root| {
      assert p == job.root[..|p|] && p in Prefixes(job.root);
    } else {
      var j :| 0 <= j < k && job.IsDir(j) && job.Located()[j].path == path[..|path| - 1];
      if |p| == |job.Dest(j)| { assert p == job.Dest(j); } else { AncestorsComeFirst(job, j, p); }
    }
  }

  // ---- Accepting makes the directories ----

  lemma DirectoryCanBeMade(job: Job, k: nat)
    requires Sendable(job) && k < |job.Located()| && job.IsDir(k)
    ensures CreateDirAll(job.base.(dirs := job.base.dirs + DirDests(job, k)), job.Dest(k), true)
         == Ok(job.base.(dirs := job.base.dirs + DirDests(job, k + 1)))
  {
    var dest := job.Dest(k);
    OfferedPathsResolve(job, k);
    forall p | p in Prefixes(dest) && p != dest ensures p in job.base.dirs + DirDests(job, k) {
      AncestorsComeFirst(job, k, p);
    }
    assert dest in Prefixes(dest) by { assert dest == dest[..|dest|]; }
    forall p | p in Prefixes(dest) ensures p !in job.base.files {
      if p !in job.base.dirs && p != dest {
        var j :| 0 <= j < k && job.IsDir(j) && p == job.Dest(j);
      }
    }
    assert job.base.dirs + DirDests(job, k) + Prefixes(dest) == job.base.dirs + DirDests(job, k + 1);
  }

  predicate Unresolved(job: Job, t: Incoming) {
    && WellSized(t) && t.entries == job.Entries() && t.root == job.root
    && (forall k :: 0 <= k < |t.written| ==> t.written[k] == 0)
    && forall k :: 0 <= k < |t.entries| && !t.entries[k].isDir ==> t.resolved[k].None?
  }

  lemma EntryFacts(job: Job, k: nat)
    requires Sendable(job) && k < |job.Located()|
    ensures var entry := job.Entries()[k];
            entry == job.Files()[k].entry && entry.index == k && entry.isDir == job.IsDir(k)
            && Content(job.Files()[k]) == (if job.Located()[k].node.File? then job.Located()[k].node.content else [])
            && (entry.isDir ==> job.Files()[k].source.None?)
  {
    OfferListsTheTree(job.nodes, k);
  }

  lemma {:induction false} AcceptingMakesTheDirectories(job: Job, t: Incoming, n: nat)
    requires Sendable(job) && Unresolved(job, t) && n <= |t.entries|
    ensures var (disk, resolved) := MakeDirectories(job.base.(dirs := job.base.dirs + DirDests(job, n)), t, n, {});
            && disk == job.base.(dirs := job.base.dirs + DirDests(job, |t.entries|))
            && Unresolved(job, t.(resolved := resolved))
    decreases |t.entries| - n
  {
    if n < |t.entries| {
      EntryFacts(job, n);
      if t.entries[n].isDir {
        OfferedPathsResolve(job, n);
        DirectoryCanBeMade(job, n);
        AcceptingMakesTheDirectories(job, t.(resolved := t.resolved[n := Some(job.Dest(n))]), n + 1);
      } else {
        assert DirDests(job, n) == DirDests(job, n + 1);
        AcceptingMakesTheDirectories(job, t, n + 1);
      }
    }
  }

  // ---- The stream fills in the files ----

  /** Every directory of the tree is made, and its files are still to come. */
  function PlanOf(job: Job): Plan {
    Plan(job.id, job.root, job.Files(), seq(|job.Located()|, k requires 0 <= k < |job.Located()| => job.Dest(k)),
         job.base.files, job.base.dirs + DirDests(job, |job.Located()|))
  }

  lemma DestsStandApart(job: Job)
    requires Sendable(job)
    ensures Apart(PlanOf(job))
  {
    var plan := PlanOf(job);
    forall k | 0 <= k < |plan.dests|
      ensures plan.dests[k] != [] && (!plan.IsFile(k) ==> plan.dests[k] !in plan.before)
      ensures plan.files[k].entry.index == k && (plan.files[k].entry.isDir ==> plan.files[k].source.None?)
      ensures plan.IsFile(k) ==> plan.dests[k] !in plan.dirs
    {
      OfferedPathsResolve(job, k);
      EntryFacts(job, k);
      if plan.IsFile(k) && plan.dests[k] in plan.dirs {
        var j :| 0 <= j < |job.Located()| && job.IsDir(j) && plan.dests[k] == job.Dest(j);
        DestinationsDiffer(job, j, k);
      }
    }
    forall p | p in plan.dirs ensures p !in plan.before {
      if p !in job.base.dirs {
        var j :| 0 <= j < |job.Located()| && job.IsDir(j) && p == job.Dest(j);
      }
    }
    forall i, j | 0 <= i < j < |plan.dests| ensures plan.dests[i] != plan.dests[j] {
      DestinationsDiffer(job, i, j);
    }
  }

  lemma DestsResolve(job: Job)
    requires Sendable(job)
    ensures AllResolve(PlanOf(job))
  {
    var plan := PlanOf(job);
    forall k | 0 <= k < |plan.files| ensures Resolves(plan, k) {
      OfferedPathsResolve(job, k);
      EntryFacts(job, k);
      forall p | p in Prefixes(plan.dests[k][..|plan.dests[k]| - 1]) ensures p in plan.dirs {
        AncestorsComeFirst(job, k, p);
      }
    }
  }

  lemma OverwritesOrFree(job: Job)
    requires Sendable(job)
    ensures job.overwrite || Free(PlanOf(job))
  {
  }

  lemma NothingHasCome(job: Job, disk: Disk, t: Incoming)
    requires Sendable(job) && Unresolved(job, t) && t.state.Active? && t.handles == {}
    requires disk.files == job.base.files && disk.dirs == PlanOf(job).dirs
    ensures DiskAt(PlanOf(job), disk, START) && TransferAt(PlanOf(job), t, START)
  {
    DestsStandApart(job);
  }

  lemma AcceptedTransferIsReady(job: Job, r: Receiver, offer: nat) returns (after: Receiver)
    requires Sendable(job) && r.disk == job.base && r.overwrite == job.overwrite
    requires job.id in r.transfers && r.transfers[job.id] == NewIncoming(offer, job.Entries(), job.root)
    ensures after == Step(r, Accepted(job.id, {})) && PlacedTo(PlanOf(job), after, START)
  {
    after := OnAccept(r, job.id, {});
    assert DirDests(job, 0) == {} && job.base.dirs + {} == job.base.dirs;
    AcceptingMakesTheDirectories(job, r.transfers[job.id], 0);
    NothingHasCome(job, after.disk, after.transfers[job.id]);
    OverwritesOrFree(job);
  }

  // ---- The round trip ----

  /** What the disk shows at a path. */
  datatype Seen = Nothing | Folder | Document(content: Bytes)

  function Look(disk: Disk, path: Path): Seen {
    if path in disk.files then Document(disk.files[path]) else if path in disk.dirs then Folder else Nothing
  }

  /** What a tree should show: files that are not empty, and directories. */
  function Expected(node: Option<Node>): Seen {
    match node
    case Some(File(_, content)) => if content == [] then Nothing else Document(content)
    case Some(Dir(_, _)) => Folder
    case _ => Nothing
  }

  /** What a disk shows once a node has been put on it: a directory, or a file over what was there. A symbolic
      link, an empty file and nothing at all leave everything as it is. */
  function Onto(disk: Disk, path: Path, node: Option<Node>): Seen {
    match node
    case Some(File(_, content)) =>
      if content == [] then Look(disk, path)
      else Document(Overlaid(if path in disk.files then disk.files[path] else [], content))
    case Some(Dir(_, _)) => Folder
    case _ => Look(disk, path)
  }

  /** Only the places where entries belong change. */
  lemma OtherPathsStay(job: Job, disk: Disk, at: Cursor, p: Path)
    requires D.InBounds(job.Files(), at) && DiskAt(PlanOf(job), disk, at)
    requires forall k :: 0 <= k < |job.Located()| ==> p != job.Dest(k)
    ensures Look(disk, p) == Look(job.base, p)
  {
    assert p !in PlanOf(job).dests;
  }

  lemma EntryIsShown(job: Job, disk: Disk, k: nat)
    requires Sendable(job) && DiskAt(PlanOf(job), disk, Cursor(|job.Files()|, 0)) && k < |job.Located()|
    ensures Look(disk, job.Dest(k)) == Onto(job.base, job.Dest(k), Some(job.Located()[k].node))
  {
    var plan, end := PlanOf(job), Cursor(|job.Files()|, 0);
    DestsStandApart(job);
    EntryFacts(job, k);
    LocatedIsNoLink(job, k);
    assert plan.dests[k] == job.Dest(k);
    assert plan.dests[k] in disk.files <==> Begun(plan, end, k) || plan.dests[k] in plan.before;
    var content := Content(job.Files()[k]);
    assert content[..|content|] == content;
    assert plan.dests[k] in disk.files ==> disk.files[plan.dests[k]] == Overlaid(Old(plan, k), content);
  }

  lemma LocatedIsNoLink(job: Job, k: nat)
    requires Sendable(job) && k < |job.Located()|
    ensures !job.Located()[k].node.Symlink?
  {
    EntriesAreInTheTree(job.nodes, []);
    assert LeadsTo(job.nodes, [], job.Located()[k]);
  }

  lemma DiskShowsTheTree(job: Job, disk: Disk, names: seq<string>)
    requires Sendable(job) && DiskAt(PlanOf(job), disk, Cursor(|job.Files()|, 0)) && names != []
    ensures Look(disk, job.root + names) == Onto(job.base, job.root + names, Lookup(job.nodes, names))
  {
    var p, found := job.root + names, Lookup(job.nodes, names);
    if found.Some? && !found.value.Symlink? {
      TheTreeIsInTheEntries(job.nodes, [], names);
      assert [] + names == names;
      var k :| 0 <= k < |job.Located()| && job.Located()[k] == Located(names, found.value);
      EntryIsShown(job, disk, k);
    } else {
      assert job.root < p && p[|job.root|..] == names;
      forall k | 0 <= k < |job.Located()| ensures p != job.Dest(k) {
        OfferListsTheTree(job.nodes, k);
        assert job.Dest(k)[|job.root|..] == job.Located()[k].path;
      }
      OtherPathsStay(job, disk, Cursor(|job.Files()|, 0), p);
    }
  }

  lemma DiskElsewhere(job: Job, disk: Disk, p: Path)
    requires Sendable(job) && DiskAt(PlanOf(job), disk, Cursor(|job.Files()|, 0)) && !(job.root < p)
    ensures Look(disk, p) == Look(job.base, p)
  {
    forall k | 0 <= k < |job.Located()| ensures p != job.Dest(k) {
      OfferedPathsResolve(job, k);
      assert job.root < job.Dest(k);
    }
    OtherPathsStay(job, disk, Cursor(|job.Files()|, 0), p);
  }

  lemma JobIsDone(job: Job, r: Receiver, offer: nat, chunks: seq<FileChunk>) returns (end: Disk)
    requires Sendable(job) && r.disk == job.base && r.overwrite == job.overwrite
    requires job.id in r.transfers && r.transfers[job.id] == NewIncoming(offer, job.Entries(), job.root)
    requires Streams(chunks, job.id, job.Files())
    ensures end == Run(Step(r, Accepted(job.id, {})), Deliveries(chunks)).disk
    ensures DiskAt(PlanOf(job), end, Cursor(|job.Files()|, 0))
  {
    var ready := AcceptedTransferIsReady(job, r, offer);
    DestsStandApart(job);
    DestsResolve(job);
    StreamIsPlaced(PlanOf(job), ready, START, chunks, Cursor(|job.Files()|, 0));
    end := Run(ready, Deliveries(chunks)).disk;
  }

  lemma DiskAtTheEnd(job: Job, disk: Disk, p: Path)
    requires Sendable(job) && DiskAt(PlanOf(job), disk, Cursor(|job.Files()|, 0))
    ensures Look(disk, p)
         == if job.root < p then Onto(job.base, p, Lookup(job.nodes, p[|job.root|..])) else Look(job.base, p)
  {
    if job.root < p {
      assert p == job.root + p[|job.root|..];
      DiskShowsTheTree(job, disk, p[|job.root|..]);
    } else {
      DiskElsewhere(job, disk, p);
    }
  }

  /** Flatten a tree, offer it, accept it into a directory it fits onto, and deliver its chunks, cut any way: the disk
      then shows the tree put onto what was there. Where files are overwritten the longer of two keeps its end. */
  lemma TreeArrives(job: Job, r: Receiver, offer: nat, chunks: seq<FileChunk>, p: Path)
    requires Sendable(job) && r.disk == job.base && r.overwrite == job.overwrite
    requires job.id in r.transfers && r.transfers[job.id] == NewIncoming(offer, job.Entries(), job.root)
    requires Streams(chunks, job.id, job.Files())
    ensures var end := Run(Step(r, Accepted(job.id, {})), Deliveries(chunks)).disk;
            Look(end, p) == if job.root < p then Onto(r.disk, p, Lookup(job.nodes, p[|job.root|..])) else Look(r.disk, p)
  {
    var end := JobIsDone(job, r, offer, chunks);
    DiskAtTheEnd(job, end, p);
  }

  lemma FreshRootFits(job: Job)
    requires SendableTree(job) && FreshRoot(job.base, job.root)
    ensures FitsOnto(job)
  {
    forall k | 0 <= k < |job.Located()| ensures job.root < job.Dest(k) {
      EntriesAreInTheTree(job.nodes, []);
      assert LeadsTo(job.nodes, [], job.Located()[k]);
    }
  }

  /** Into an empty directory: below the root the disk then shows the tree, minus symbolic links and empty files, and
      elsewhere what it showed before. */
  lemma TreeRoundTrip(job: Job, r: Receiver, offer: nat, chunks: seq<FileChunk>, p: Path)
    requires SendableTree(job) && FreshRoot(job.base, job.root) && r.disk == job.base && r.overwrite == job.overwrite
    requires job.id in r.transfers && r.transfers[job.id] == NewIncoming(offer, job.Entries(), job.root)
    requires Streams(chunks, job.id, job.Files())
    ensures var end := Run(Step(r, Accepted(job.id, {})), Deliveries(chunks)).disk;
            Look(end, p) == if job.root < p then Expected(Lookup(job.nodes, p[|job.root|..])) else Look(r.disk, p)
  {
    FreshRootFits(job);
    TreeArrives(job, r, offer, chunks, p);
  }

  /** Received again with overwriting on, a file that is no longer than before is replaced byte for byte exactly if it is
      as long; the end of a longer one stays. */
  lemma OverwrittenIsReplacedIff(was: Bytes, content: Bytes)
    ensures Overlaid(was, content) == content <==> |was| <= |content|
    ensures |was| > |content| ==> Overlaid(was, content) == content + was[|content|..]
  {
  }
}
