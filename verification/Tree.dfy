/** Flattening what the user picked into a list of entries (crates/ud-engine/src/transfer.rs:141-218). */
module Tree {
  import opened Wrappers
  import opened Codec
  import opened Paths
  import opened Transfer

  /** A file system tree as the walk sees it; the children of a directory are listed in the order it
      visits them. */
  datatype Node =
    | File(name: string, content: Bytes)
    | Dir(name: string, children: seq<Node>)
    | Symlink(name: string)

  /** A node and the names leading to it. */
  datatype Located = Located(path: seq<string>, node: Node)

  /** Everything but symbolic links, each directory directly before what is in it. */
  function Preorder(nodes: seq<Node>, prefix: seq<string>): seq<Located>
    decreases nodes, 0
  {
    if nodes == [] then [] else PreorderOf(nodes[0], prefix) + Preorder(nodes[1..], prefix)
  }

  function PreorderOf(node: Node, prefix: seq<string>): seq<Located>
    decreases node, 1
  {
    var here := prefix + [node.name];
    match node
    case Symlink(_) => []
    case File(_, _) => [Located(here, node)]
    case Dir(_, children) => [Located(here, node)] + Preorder(children, here)
  }

  /** Every name that would be offered is safe; the walk refuses everything otherwise. */
  predicate Collectable(nodes: seq<Node>)
    decreases nodes, 0
  {
    nodes == [] || (CollectableNode(nodes[0]) && Collectable(nodes[1..]))
  }

  predicate CollectableNode(node: Node)
    decreases node, 1
  {
    node.Symlink? || (SafeName(node.name) && (node.Dir? ==> Collectable(node.children)))
  }

  function EntryOf(located: Located, index: U32): OutgoingFile {
    var node := located.node;
    OutgoingFile(
      FileEntry(index, node.name, Join(located.path), if node.File? then |node.content| else 0, node.Dir?),
      if node.File? then Some(node.content) else None)
  }

  const INDICES := 0x1_0000_0000

  /** The offer for a list of located nodes, numbered by position in 32 bits. */
  function Offer(located: seq<Located>): (files: seq<OutgoingFile>)
    ensures |files| == |located|
  {
    seq(|located|, k requires 0 <= k < |located| => EntryOf(located[k], k % INDICES))
  }

  /** The relative path of a nested entry, as the walk builds it. */
  function Nested(prefix: string, name: string): string {
    if prefix == "" then name else prefix + "/" + name
  }

  lemma NestedNames(names: seq<string>, name: string)
    requires AllSafe(names) && SafeName(name)
    ensures AllSafe(names + [name]) && Join(names + [name]) == Nested(Join(names), name)
  {
    assert (names + [name])[..|names|] == names;
    if names != [] { assert names[|names| - 1] in names; }
  }

  /** The walk with its list of entries and its running index. `visited` is what the entries are for. */
  class Collector {
    var entries: seq<OutgoingFile>
    var nextIndex: U32
    ghost var visited: seq<Located>

    ghost predicate Valid()
      reads this
    {
      entries == Offer(visited) && nextIndex == |visited| % INDICES
    }

    constructor ()
      ensures Valid() && visited == []
    {
      entries, nextIndex, visited := [], 0, [];
    }

    method Push(node: Node, relative: string, ghost path: seq<string>)
      requires Valid() && relative == Join(path)
      modifies this
      ensures Valid() && visited == old(visited) + [Located(path, node)]
    {
      var size := if node.File? then |node.content| else 0;
      var entry := FileEntry(nextIndex, node.name, relative, size, node.Dir?);
      entries := entries + [OutgoingFile(entry, if node.File? then Some(node.content) else None)];
      nextIndex := (nextIndex + 1) % INDICES;
      visited := visited + [Located(path, node)];
    }

    static method CheckName(name: string) returns (checked: Result<string>)
      ensures checked == if SafeName(name) then Ok(name) else Err(name)
    {
      ComponentAcceptedIffSafe(name);
      return SanitizeComponent(name);
    }

    /** Adds a path and everything below it, or stops at the first name it may not offer. */
    method Walk(node: Node, prefix: string, ghost names: seq<string>) returns (ok: bool)
      requires Valid() && AllSafe(names) && prefix == Join(names)
      modifies this
      ensures Valid() && (ok <==> CollectableNode(node))
      ensures ok ==> visited == old(visited) + PreorderOf(node, names)
      decreases node, 1
    {
      if node.Symlink? {
        return true;
      }
      var sanitized := CheckName(node.name);
      if sanitized.Err? {
        return false;
      }
      ghost var here := names + [node.name];
      NestedNames(names, node.name);
      var relative := Nested(prefix, sanitized.value);
      Push(node, relative, here);
      ok := true;
      if node.Dir? {
        ok := WalkAll(node.children, relative, here);
        assert ok ==> visited == old(visited) + ([Located(here, node)] + Preorder(node.children, here));
      }
    }

    /** The children of a directory in turn, and the paths the user picked. */
    method WalkAll(nodes: seq<Node>, prefix: string, ghost names: seq<string>) returns (ok: bool)
      requires Valid() && AllSafe(names) && prefix == Join(names)
      modifies this
      ensures Valid() && (ok <==> Collectable(nodes))
      ensures ok ==> visited == old(visited) + Preorder(nodes, names)
      decreases nodes, 0
    {
      for i := 0 to |nodes|
        invariant Valid() && (Collectable(nodes) <==> Collectable(nodes[i..]))
        invariant visited + Preorder(nodes[i..], names) == old(visited) + Preorder(nodes, names)
      {
        assert nodes[i..][0] == nodes[i] && nodes[i..][1..] == nodes[i + 1..];
        var fine := Walk(nodes[i], prefix, names);
        if !fine {
          return false;
        }
      }
      assert nodes[|nodes|..] == [];
      return true;
    }
  }

  /** Walks what the user picked into a flat list, or refuses all of it. */
  method CollectEntries(nodes: seq<Node>) returns (result: Option<seq<OutgoingFile>>)
    ensures result == if Collectable(nodes) then Some(Offer(Preorder(nodes, []))) else None
  {
    var collector := new Collector();
    var ok := collector.WalkAll(nodes, "", []);
    assert ok ==> collector.visited == Preorder(nodes, []);
    return if ok then Some(collector.entries) else None;
  }

  // ---- What the list says about the tree ----

  /** Siblings have different names, symbolic links included, as a file system guarantees inside a
      directory; for the paths the user picked it is an assumption. */
  predicate DistinctNames(nodes: seq<Node>)
    decreases nodes, 0
  {
    nodes == [] ||
    (&& (forall other :: other in nodes[1..] ==> other.name != nodes[0].name)
     && (nodes[0].Dir? ==> DistinctNames(nodes[0].children)) && DistinctNames(nodes[1..]))
  }

  /** The node a sequence of names leads to. */
  function Lookup(nodes: seq<Node>, names: seq<string>): Option<Node>
    requires names != []
    decreases |names|, |nodes|
  {
    if nodes == [] then None
    else if nodes[0].name != names[0] then Lookup(nodes[1..], names)
    else if |names| == 1 then Some(nodes[0])
    else if nodes[0].Dir? then Lookup(nodes[0].children, names[1..])
    else None
  }

  /** The names of a located node below `prefix`, and that they lead to it. */
  predicate LeadsTo(nodes: seq<Node>, prefix: seq<string>, located: Located) {
    && prefix < located.path && located.path[|prefix|] in Names(nodes)
    && Lookup(nodes, located.path[|prefix|..]) == Some(located.node) && !located.node.Symlink?
  }

  function Names(nodes: seq<Node>): set<string> {
    set node | node in nodes :: node.name
  }

  /** Every entry is where its path leads in the tree. */
  lemma {:induction false} EntriesAreInTheTree(nodes: seq<Node>, prefix: seq<string>)
    requires DistinctNames(nodes)
    ensures forall located :: located in Preorder(nodes, prefix) ==> LeadsTo(nodes, prefix, located)
    decreases nodes
  {
    if nodes != [] {
      var first, rest := nodes[0], nodes[1..];
      assert nodes == [first] + rest;
      var here := prefix + [first.name];
      EntriesAreInTheTree(rest, prefix);
      if first.Dir? { EntriesAreInTheTree(first.children, here); }
      forall located | located in Preorder(nodes, prefix) ensures LeadsTo(nodes, prefix, located) {
        if located in Preorder(rest, prefix) {
          assert LeadsTo(rest, prefix, located);
          assert located.path[|prefix|..][0] == located.path[|prefix|];
        } else {
          assert located in PreorderOf(first, prefix);
          if located == Located(here, first) {
            assert located.path[|prefix|..] == [first.name];
          } else {
            assert first.Dir? && located in Preorder(first.children, here);
            assert LeadsTo(first.children, here, located);
            assert located.path[|prefix|..][1..] == located.path[|here|..];
            assert located.path[|prefix|] == first.name;
          }
        }
      }
    }
  }

  /** Everything a path leads to, symbolic links aside, has an entry. */
  lemma {:induction false} TheTreeIsInTheEntries(nodes: seq<Node>, prefix: seq<string>, names: seq<string>)
    requires names != [] && Lookup(nodes, names).Some? && !Lookup(nodes, names).value.Symlink?
    ensures Located(prefix + names, Lookup(nodes, names).value) in Preorder(nodes, prefix)
    decreases |names|, |nodes|
  {
    var first := nodes[0];
    if first.name != names[0] {
      TheTreeIsInTheEntries(nodes[1..], prefix, names);
    } else if |names| == 1 {
      assert prefix + names == prefix + [first.name];
    } else {
      TheTreeIsInTheEntries(first.children, prefix + [first.name], names[1..]);
      assert prefix + [first.name] + names[1..] == prefix + names;
    }
  }

  predicate Distinct(located: seq<Located>) {
    forall i, j :: 0 <= i < j < |located| ==> located[i].path != located[j].path
  }

  /** A list put together from two that have no path in common. */
  lemma DistinctInTwo(a: seq<Located>, b: seq<Located>)
    requires Distinct(a) && Distinct(b)
    requires forall x, y :: x in a && y in b ==> x.path != y.path
    ensures Distinct(a + b)
  {
    forall i, j | 0 <= i < j < |a + b| ensures (a + b)[i].path != (a + b)[j].path {
      if i < |a| <= j { assert a[i] in a && b[j - |a|] in b; }
    }
  }

  /** No path is offered twice. */
  lemma {:induction false} OfferedPathsAreDistinct(nodes: seq<Node>, prefix: seq<string>)
    requires DistinctNames(nodes)
    ensures Distinct(Preorder(nodes, prefix))
    decreases nodes
  {
    if nodes != [] {
      var first, rest := nodes[0], nodes[1..];
      var here := prefix + [first.name];
      OfferedPathsAreDistinct(rest, prefix);
      EntriesAreInTheTree(rest, prefix);
      EntriesAreInTheTree([first], prefix);
      assert Preorder([first], prefix) == PreorderOf(first, prefix) + Preorder([], prefix);
      if first.Dir? {
        OfferedPathsAreDistinct(first.children, here);
        EntriesAreInTheTree(first.children, here);
        DistinctInTwo([Located(here, first)], Preorder(first.children, here));
      }
      forall x, y | x in PreorderOf(first, prefix) && y in Preorder(rest, prefix) ensures x.path != y.path {
        assert x in Preorder([first], prefix);
        assert LeadsTo([first], prefix, x) && LeadsTo(rest, prefix, y);
      }
      DistinctInTwo(PreorderOf(first, prefix), Preorder(rest, prefix));
    }
  }

  /** The directory an entry is in comes before it, unless it was picked itself. */
  predicate ParentBefore(located: seq<Located>, prefix: seq<string>, k: nat)
    requires k < |located|
  {
    |located[k].path| > |prefix| + 1 ==>
      exists j :: 0 <= j < k && located[j].node.Dir? && located[j].path == located[k].path[..|located[k].path| - 1]
  }

  lemma {:induction false} DirectoriesPrecedeTheirContents(nodes: seq<Node>, prefix: seq<string>)
    requires DistinctNames(nodes)
    ensures forall k :: 0 <= k < |Preorder(nodes, prefix)| ==> ParentBefore(Preorder(nodes, prefix), prefix, k)
    decreases nodes
  {
    if nodes != [] {
      var first, rest, all := nodes[0], nodes[1..], Preorder(nodes, prefix);
      var here, own, others := prefix + [first.name], PreorderOf(first, prefix), Preorder(rest, prefix);
      assert all == own + others;
      DirectoriesPrecedeTheirContents(rest, prefix);
      if first.Dir? {
        DirectoriesPrecedeTheirContents(first.children, here);
        EntriesAreInTheTree(first.children, here);
      }
      forall k | 0 <= k < |all| ensures ParentBefore(all, prefix, k) {
        if k >= |own| {
          assert all[k] == others[k - |own|] && ParentBefore(others, prefix, k - |own|);
          if |all[k].path| > |prefix| + 1 {
            var j :| 0 <= j < k - |own| && others[j].node.Dir? && others[j].path == all[k].path[..|all[k].path| - 1];
            assert all[|own| + j] == others[j];
          }
        } else if k > 0 {
          ChildHasParentBefore(first, prefix, k);
          if |all[k].path| > |prefix| + 1 {
            var j :| 0 <= j < k && own[j].node.Dir? && own[j].path == own[k].path[..|own[k].path| - 1];
            assert all[j] == own[j];
          }
        }
      }
    }
  }

  lemma ChildHasParentBefore(first: Node, prefix: seq<string>, k: nat)
    requires 0 < k < |PreorderOf(first, prefix)| && first.Dir?
    requires var here := prefix + [first.name];
             var inside := Preorder(first.children, here);
             && LeadsTo(first.children, here, inside[k - 1]) && ParentBefore(inside, here, k - 1)
    ensures ParentBefore(PreorderOf(first, prefix), prefix, k)
  {
    var here := prefix + [first.name];
    var own, inside := PreorderOf(first, prefix), Preorder(first.children, here);
    var path := own[k].path;
    assert own[k] == inside[k - 1] && own[0] == Located(here, first);
    if |path| > |here| + 1 {
      var j :| 0 <= j < k - 1 && inside[j].node.Dir? && inside[j].path == path[..|path| - 1];
      assert own[j + 1] == inside[j];
    } else {
      assert path[..|path| - 1] == here;
    }
  }

  /** A path leads to a node of its last name. */
  lemma {:induction false} LookupIsNamed(nodes: seq<Node>, names: seq<string>)
    requires names != [] && Lookup(nodes, names).Some?
    ensures Lookup(nodes, names).value.name == names[|names| - 1]
    decreases |names|, |nodes|
  {
    if nodes[0].name != names[0] { LookupIsNamed(nodes[1..], names); }
    else if |names| > 1 { LookupIsNamed(nodes[0].children, names[1..]); }
  }

  /** Entry `k` of an offer is numbered `k`, spells out the path of the node it stands for, and carries
      its name, and its content and size if that is a file. */
  predicate StandsFor(nodes: seq<Node>, file: OutgoingFile, path: seq<string>, k: nat) {
    && path != [] && Lookup(nodes, path).Some?
    && var node := Lookup(nodes, path).value;
       && !node.Symlink? && file.entry.index == k && file.entry.relativePath == Join(path)
       && file.entry.isDir == node.Dir?
       && file.entry.name == path[|path| - 1] && file.entry.size == (if node.File? then |node.content| else 0)
       && file.source == (if node.File? then Some(node.content) else None)
  }

  /** The offer lists the tree: by position, in the order of the walk, every entry standing for the node
      its path leads to, no path twice, and every directory before what is in it. */
  lemma OfferListsTheTree(nodes: seq<Node>, k: nat)
    requires DistinctNames(nodes) && k < |Preorder(nodes, [])| <= INDICES
    ensures var located := Preorder(nodes, []);
            StandsFor(nodes, Offer(located)[k], located[k].path, k) && ParentBefore(located, [], k)
            && forall j :: 0 <= j < |located| && j != k ==> located[j].path != located[k].path
  {
    var located := Preorder(nodes, []);
    EntriesAreInTheTree(nodes, []);
    OfferedPathsAreDistinct(nodes, []);
    DirectoriesPrecedeTheirContents(nodes, []);
    assert LeadsTo(nodes, [], located[k]);
    assert located[k].path[0..] == located[k].path;
    LookupIsNamed(nodes, located[k].path);
  }
}
