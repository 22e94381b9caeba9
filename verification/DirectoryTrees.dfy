/**
  The expansion of a Directory DAG into a Tree message, and the unpacking of a Tree.

  All readings of a DAG go through a resolver, which answers a digest with the Directory read for it:
  from the CAS, or from among the children of a Tree.
 */
module DirectoryTrees {
  import opened Common
  import opened Messages
  import opened BlobStores

  type Resolver = Digest -> Option<Directory>

  /** Reading a Directory from the CAS: the digest must parse, be present and name a Directory. */
  function CasResolver(cas: Cas, fn: Function): Resolver {
    d =>
      if !WellFormed(fn, d) then None
      else match Lookup(cas, fn, d) case Some(wire) => AsDirectory(wire) case None => None
  }

  function Find(algorithm: Algorithm, pool: seq<Directory>, d: Digest): Option<Directory> {
    if pool == [] then None
    else if DigestOf(algorithm, DirectoryWire(pool[0])) == d then Some(pool[0])
    else Find(algorithm, pool[1..], d)
  }

  /** Looking a digest up among the children of a Tree. */
  function TreeResolver(algorithm: Algorithm, pool: seq<Directory>): Resolver {
    d => Find(algorithm, pool, d)
  }

  /** A resolver answers only with the Directory whose digest it was asked for. */
  ghost predicate Faithful(r: Resolver, algorithm: Algorithm) {
    forall d :: r(d).Some? ==> d == DigestOf(algorithm, DirectoryWire(r(d).value))
  }

  ghost predicate Named(r: Resolver) {
    forall d :: r(d).Some? ==> r(d) == NamedDirectory(d)
  }

  lemma FaithfulIsNamed(r: Resolver, algorithm: Algorithm)
    requires Faithful(r, algorithm)
    ensures Named(r)
  {
  }

  lemma CasResolverFaithful(cas: Cas, fn: Function)
    requires ContentAddressed(cas)
    ensures Faithful(CasResolver(cas, fn), fn.algorithm)
    ensures Named(CasResolver(cas, fn))
  {
  }

  /** Every CAS has the empty Directory, and reads its digest as that alone. */
  lemma EmptyDirectoryIsEverywhere(cas: Cas, fn: Function)
    ensures CasResolver(cas, fn)(DigestOf(fn.algorithm, DirectoryWire(Directory([], [], [])))) ==
            Some(Directory([], [], []))
    ensures Lookup(cas, fn, DigestOf(fn.algorithm, DirectoryWire(Directory([], [], [])))) == Some(Blob(""))
  {
  }

  lemma {:induction false} FindSound(algorithm: Algorithm, pool: seq<Directory>, d: Digest)
    ensures Find(algorithm, pool, d).Some? ==>
              Find(algorithm, pool, d).value in pool
                  && d == DigestOf(algorithm, DirectoryWire(Find(algorithm, pool, d).value))
    ensures (exists x :: x in pool && d == DigestOf(algorithm, DirectoryWire(x))) ==> Find(algorithm, pool, d).Some?
  {
    if pool != [] {
      FindSound(algorithm, pool[1..], d);
      assert pool == [pool[0]] + pool[1..];
    }
  }

  lemma TreeResolverFaithful(algorithm: Algorithm, pool: seq<Directory>)
    ensures Faithful(TreeResolver(algorithm, pool), algorithm)
    ensures Named(TreeResolver(algorithm, pool))
  {
    var r := TreeResolver(algorithm, pool);
    forall d | r(d).Some? ensures d == DigestOf(algorithm, DirectoryWire(r(d).value)) {
      FindSound(algorithm, pool, d);
    }
    FaithfulIsNamed(r, algorithm);
  }

  // ---- The unfolded size of a DAG, read off its digests ----

  /** Number of Directory nodes met when the DAG below `nodes` is unfolded into a tree. */
  function Weight(nodes: seq<DirectoryNode>): nat
    decreases nodes
  {
    if nodes == [] then 0 else NodeWeight(nodes[0]) + Weight(nodes[1..])
  }

  function NodeWeight(node: DirectoryNode): (w: nat)
    ensures w >= 1
    decreases node
  {
    match node.digest
    case Of(_, DirectoryWire(d)) => 1 + Weight(d.directories)
    case _ => 1
  }

  lemma WeightOfNamed(node: DirectoryNode)
    requires NamedDirectory(node.digest).Some?
    ensures NodeWeight(node) == 1 + Weight(NamedDirectory(node.digest).value.directories)
  {
  }

  // ---- Expansion ----

  /** All descendants of a node, the node's own Directory first; None when one of them cannot be read. */
  function ExpandNode(r: Resolver, node: DirectoryNode): Option<seq<Directory>>
    requires Named(r)
    decreases NodeWeight(node), 0
  {
    match r(node.digest)
    case None => None
    case Some(directory) =>
      WeightOfNamed(node);
      Prepend([directory], ExpandNodes(r, directory.directories))
  }

  function ExpandNodes(r: Resolver, nodes: seq<DirectoryNode>): Option<seq<Directory>>
    requires Named(r)
    decreases Weight(nodes), 1 + |nodes|
  {
    if nodes == [] then Some([])
    else match ExpandNode(r, nodes[0])
         case None => None
         case Some(children) => Prepend(children, ExpandNodes(r, nodes[1..]))
  }

  function Prepend<T>(a: seq<T>, b: Option<seq<T>>): Option<seq<T>> {
    if b.Some? then Some(a + b.value) else None
  }

  lemma PrependAssociates<T>(a: seq<T>, b: Option<seq<T>>, c: Option<seq<T>>)
    ensures b.Some? ==> Prepend(a, Prepend(b.value, c)) == Prepend(a + b.value, c)
  {
    if b.Some? && c.Some? {
      assert a + (b.value + c.value) == (a + b.value) + c.value;
    }
  }

  /** The Directories below `nodes` in preorder, shared ones repeated, read off the digests alone. */
  function Preorder(nodes: seq<DirectoryNode>): seq<Directory>
    decreases Weight(nodes), 1 + |nodes|
  {
    if nodes == [] then [] else NodePreorder(nodes[0]) + Preorder(nodes[1..])
  }

  function NodePreorder(node: DirectoryNode): seq<Directory>
    decreases NodeWeight(node), 0
  {
    match NamedDirectory(node.digest)
    case None => []
    case Some(directory) =>
      WeightOfNamed(node);
      [directory] + Preorder(directory.directories)
  }

  /** A successful expansion is the preorder listing, whatever store it was read from. */
  lemma {:induction false} ExpandIsPreorder(r: Resolver, nodes: seq<DirectoryNode>)
    requires Named(r)
    requires ExpandNodes(r, nodes).Some?
    ensures ExpandNodes(r, nodes) == Some(Preorder(nodes))
    ensures |Preorder(nodes)| == Weight(nodes)
    decreases Weight(nodes), |nodes|
  {
    if nodes != [] {
      var directory := r(nodes[0].digest).value;
      WeightOfNamed(nodes[0]);
      ExpandIsPreorder(r, directory.directories);
      ExpandIsPreorder(r, nodes[1..]);
    }
  }

  /** Equal roots expand to equal Trees, and so to equal Tree digests, in any two stores. */
  lemma EqualRootsEqualTrees(r: Resolver, s: Resolver, root: Directory)
    requires Named(r) && Named(s)
    requires ExpandNodes(r, root.directories).Some? && ExpandNodes(s, root.directories).Some?
    ensures ExpandNodes(r, root.directories) == ExpandNodes(s, root.directories)
  {
    ExpandIsPreorder(r, root.directories);
    ExpandIsPreorder(s, root.directories);
  }

  // ---- Reachability by paths ----

  datatype Walked = OffTree | Broken | Reached(directory: Directory)

  /** Follows a path of entry positions, reading one Directory per step. */
  function Walk(r: Resolver, nodes: seq<DirectoryNode>, path: seq<nat>): Walked
    requires path != []
    decreases path
  {
    if path[0] >= |nodes| then OffTree
    else match r(nodes[path[0]].digest)
         case None => Broken
         case Some(directory) =>
           if |path| == 1 then Reached(directory) else Walk(r, directory.directories, path[1..])
  }

  /** No path of entries runs into a Directory that cannot be read. */
  ghost predicate Closed(r: Resolver, nodes: seq<DirectoryNode>) {
    forall path :: path != [] ==> Walk(r, nodes, path) != Broken
  }

  lemma {:induction false} ExpandedNode(r: Resolver, nodes: seq<DirectoryNode>, i: nat)
    requires Named(r) && i < |nodes|
    requires ExpandNodes(r, nodes).Some?
    ensures r(nodes[i].digest).Some? && ExpandNodes(r, r(nodes[i].digest).value.directories).Some?
    decreases |nodes|
  {
    if i > 0 {
      ExpandedNode(r, nodes[1..], i - 1);
    }
  }

  lemma {:induction false} ExpandedNeverBreaks(r: Resolver, nodes: seq<DirectoryNode>, path: seq<nat>)
    requires Named(r) && path != []
    requires ExpandNodes(r, nodes).Some?
    ensures Walk(r, nodes, path) != Broken
    decreases path
  {
    if path[0] < |nodes| {
      ExpandedNode(r, nodes, path[0]);
      if |path| > 1 {
        ExpandedNeverBreaks(r, r(nodes[path[0]].digest).value.directories, path[1..]);
      }
    }
  }

  lemma {:induction false} BrokenPath(r: Resolver, nodes: seq<DirectoryNode>) returns (path: seq<nat>)
    requires Named(r)
    requires ExpandNodes(r, nodes).None?
    ensures path != [] && Walk(r, nodes, path) == Broken
    decreases Weight(nodes), |nodes|
  {
    if r(nodes[0].digest).None? {
      path := [0];
    } else if ExpandNode(r, nodes[0]).None? {
      WeightOfNamed(nodes[0]);
      var rest := BrokenPath(r, r(nodes[0].digest).value.directories);
      path := [0] + rest;
      assert path[1..] == rest;
    } else {
      var rest := BrokenPath(r, nodes[1..]);
      path := [rest[0] + 1] + rest[1..];
      assert path[1..] == rest[1..];
    }
  }

  /** The expansion succeeds exactly when every reachable Directory can be read. */
  lemma ExpandSucceedsIffClosed(r: Resolver, nodes: seq<DirectoryNode>)
    requires Named(r)
    ensures ExpandNodes(r, nodes).Some? <==> Closed(r, nodes)
  {
    if ExpandNodes(r, nodes).Some? {
      forall path: seq<nat> | path != [] ensures Walk(r, nodes, path) != Broken {
        ExpandedNeverBreaks(r, nodes, path);
      }
    } else {
      var path := BrokenPath(r, nodes);
    }
  }

  /** On success the children are exactly the Directories that some path reaches. */
  lemma {:induction false} PreorderReached(r: Resolver, nodes: seq<DirectoryNode>, directory: Directory)
    returns (path: seq<nat>)
    requires Named(r) && ExpandNodes(r, nodes).Some?
    requires directory in Preorder(nodes)
    ensures path != [] && Walk(r, nodes, path) == Reached(directory)
    decreases Weight(nodes), |nodes|
  {
    var first := r(nodes[0].digest).value;
    WeightOfNamed(nodes[0]);
    if directory == first {
      path := [0];
    } else if directory in Preorder(first.directories) {
      var rest := PreorderReached(r, first.directories, directory);
      path := [0] + rest;
      assert path[1..] == rest;
    } else {
      var rest := PreorderReached(r, nodes[1..], directory);
      path := [rest[0] + 1] + rest[1..];
      assert path[1..] == rest[1..];
    }
  }

  lemma {:induction false} ReachedInPreorder(r: Resolver, nodes: seq<DirectoryNode>, path: seq<nat>)
    requires Named(r)
    requires path != [] && Walk(r, nodes, path).Reached?
    ensures Walk(r, nodes, path).directory in Preorder(nodes)
    decreases |path|, |nodes|
  {
    if path[0] == 0 {
      if |path| > 1 {
        ReachedInPreorder(r, r(nodes[0].digest).value.directories, path[1..]);
      }
    } else {
      var shifted := [path[0] - 1] + path[1..];
      assert shifted[1..] == path[1..];
      assert nodes[1..][path[0] - 1] == nodes[path[0]];
      ReachedInPreorder(r, nodes[1..], shifted);
    }
  }

  /** On success the children of the Tree are exactly the Directories that some path of entries reaches. */
  lemma ChildrenAreReachable(r: Resolver, nodes: seq<DirectoryNode>, directory: Directory)
    requires Named(r) && ExpandNodes(r, nodes).Some?
    ensures directory in ExpandNodes(r, nodes).value <==>
        exists path: seq<nat> :: path != [] && Walk(r, nodes, path) == Reached(directory)
  {
    ExpandIsPreorder(r, nodes);
    if directory in Preorder(nodes) {
      var path := PreorderReached(r, nodes, directory);
    }
    forall path: seq<nat> | path != [] && Walk(r, nodes, path) == Reached(directory)
      ensures directory in Preorder(nodes)
    {
      ReachedInPreorder(r, nodes, path);
    }
  }

  // ---- The file hierarchy that a DAG stands for ----

  datatype Hierarchy = Hierarchy(files: seq<FileNode>, symlinks: seq<SymlinkNode>, entries: seq<Entry>)
  datatype Entry = Entry(name: string, contents: Hierarchy)

  function Entries(r: Resolver, nodes: seq<DirectoryNode>): Option<seq<Entry>>
    requires Named(r)
    decreases Weight(nodes), |nodes|
  {
    if nodes == [] then Some([])
    else match r(nodes[0].digest)
         case None => None
         case Some(directory) =>
           WeightOfNamed(nodes[0]);
           match Entries(r, directory.directories)
           case None => None
           case Some(below) =>
             Prepend([Entry(nodes[0].name, Hierarchy(directory.files, directory.symlinks, below))],
                     Entries(r, nodes[1..]))
  }

  /** The file hierarchy below a root Directory; None when part of it cannot be read. */
  function HierarchyOf(r: Resolver, root: Directory): Option<Hierarchy>
    requires Named(r)
  {
    match Entries(r, root.directories)
    case None => None
    case Some(below) => Some(Hierarchy(root.files, root.symlinks, below))
  }

  /** A resolver that knows at least as much gives the same expansion and the same hierarchy. */
  lemma {:induction false} MoreResolves(r: Resolver, s: Resolver, nodes: seq<DirectoryNode>)
    requires Named(r) && Named(s)
    requires ExpandNodes(r, nodes).Some?
    requires forall d :: r(d).Some? && r(d).value in Preorder(nodes) ==> s(d).Some?
    ensures ExpandNodes(s, nodes) == ExpandNodes(r, nodes)
    ensures Entries(r, nodes).Some? && Entries(s, nodes) == Entries(r, nodes)
    decreases Weight(nodes), |nodes|
  {
    if nodes != [] {
      var directory := r(nodes[0].digest).value;
      WeightOfNamed(nodes[0]);
      assert directory in Preorder(nodes);
      MoreResolves(r, s, directory.directories);
      MoreResolves(r, s, nodes[1..]);
    }
  }

  /** The hierarchy exists exactly when the expansion does. */
  lemma {:induction false} HierarchyIffExpand(r: Resolver, nodes: seq<DirectoryNode>)
    requires Named(r)
    ensures Entries(r, nodes).Some? <==> ExpandNodes(r, nodes).Some?
    decreases Weight(nodes), |nodes|
  {
    if nodes != [] && r(nodes[0].digest).Some? {
      WeightOfNamed(nodes[0]);
      HierarchyIffExpand(r, r(nodes[0].digest).value.directories);
      HierarchyIffExpand(r, nodes[1..]);
    }
  }

  /**
    The Tree that directoryToTree builds has, looked up among its own children, the meaning its root has in the CAS.
   */
  lemma ExpansionPreservesMeaning(r: Resolver, algorithm: Algorithm, root: Directory, tree: Tree)
    requires Faithful(r, algorithm) && Named(r)
    requires ExpandNodes(r, root.directories).Some?
    requires tree == Tree(root, ExpandNodes(r, root.directories).value)
    ensures Named(TreeResolver(algorithm, tree.children))
    ensures HierarchyOf(TreeResolver(algorithm, tree.children), tree.root) == HierarchyOf(r, root)
    ensures HierarchyOf(r, root).Some?
  {
    var s := TreeResolver(algorithm, tree.children);
    TreeResolverFaithful(algorithm, tree.children);
    ExpandIsPreorder(r, root.directories);
    forall d | r(d).Some? && r(d).value in Preorder(root.directories) ensures s(d).Some? {
      FindSound(algorithm, tree.children, d);
    }
    MoreResolves(r, s, root.directories);
  }

  // ---- Unpacking a Tree into a CAS ----

  function DirectoryWires(directories: seq<Directory>): (wires: seq<Wire>)
    ensures |wires| == |directories|
    ensures forall i :: 0 <= i < |directories| ==> wires[i] == DirectoryWire(directories[i])
  {
    if directories == [] then [] else [DirectoryWire(directories[0])] + DirectoryWires(directories[1..])
  }

  /** The CAS after the root and every child of a Tree were uploaded. */
  function Unpack(cas: Cas, fn: Function, tree: Tree): Cas {
    StoreAll(Store(cas, fn, DirectoryWire(tree.root)), fn, DirectoryWires(tree.children))
  }

  ghost predicate HoldsNoDirectory(cas: Cas) {
    forall k :: k in cas ==> AsDirectory(cas[k]).None?
  }

  lemma UnpackKeeps(cas: Cas, fn: Function, tree: Tree)
    requires ContentAddressed(cas)
    ensures ContentAddressed(Unpack(cas, fn, tree)) && Grown(cas, Unpack(cas, fn, tree))
    ensures Faithful(CasResolver(Unpack(cas, fn, tree), fn), fn.algorithm)
        && Named(CasResolver(Unpack(cas, fn, tree), fn))
  {
    StoreKeeps(cas, fn, DirectoryWire(tree.root));
    StoreAllKeeps(Store(cas, fn, DirectoryWire(tree.root)), fn, DirectoryWires(tree.children));
    CasResolverFaithful(Unpack(cas, fn, tree), fn);
  }

  /** After unpacking, the digests of the root and of every child can be read. */
  lemma UnpackedReadable(cas: Cas, fn: Function, tree: Tree, directory: Directory)
    requires ContentAddressed(cas)
    requires directory == tree.root || directory in tree.children
    ensures CasResolver(Unpack(cas, fn, tree), fn)(DigestOf(fn.algorithm, DirectoryWire(directory))) == Some(directory)
  {
    var next := Store(cas, fn, DirectoryWire(tree.root));
    var wires := DirectoryWires(tree.children);
    StoreKeeps(cas, fn, DirectoryWire(tree.root));
    StoreAllKeeps(next, fn, wires);
    if directory == tree.root {
      assert KeyOf(fn, DirectoryWire(directory)) in next;
    } else {
      var i :| 0 <= i < |tree.children| && tree.children[i] == directory;
      assert KeyOf(fn, wires[i]) in Unpack(cas, fn, tree);
    }
    LookupStored(Unpack(cas, fn, tree), fn, DirectoryWire(directory));
  }

  /** If the CAS held no Directory before, nothing else can be read afterwards, except the empty Directory. */
  lemma UnpackedReadableOnly(cas: Cas, fn: Function, tree: Tree, d: Digest)
    requires ContentAddressed(cas) && HoldsNoDirectory(cas)
    requires CasResolver(Unpack(cas, fn, tree), fn)(d).Some?
    ensures exists x ::
        x in [tree.root] + tree.children + [EMPTY_DIRECTORY] && d == DigestOf(fn.algorithm, DirectoryWire(x))
  {
    var all := [tree.root] + tree.children + [EMPTY_DIRECTORY];
    var next := Store(cas, fn, DirectoryWire(tree.root));
    var wires := DirectoryWires(tree.children);
    StoreKeeps(cas, fn, DirectoryWire(tree.root));
    StoreAllKeeps(next, fn, wires);
    var k := Key(fn, d);
    if d == EmptyDigest(fn.algorithm) {
      assert EMPTY_DIRECTORY in all && d == DigestOf(fn.algorithm, DirectoryWire(EMPTY_DIRECTORY));
    } else if k in next {
      assert k == KeyOf(fn, DirectoryWire(tree.root));
      assert all[0] == tree.root;
    } else {
      var i :| 0 <= i < |wires| && k == KeyOf(fn, wires[i]);
      assert all[i + 1] == tree.children[i];
    }
  }

  /** Two resolvers that agree on all Directories smaller than `bound` expand nodes of at most that weight alike. */
  lemma {:induction false} AgreeBelow(r: Resolver, s: Resolver, nodes: seq<DirectoryNode>, bound: nat)
    requires Named(r) && Named(s) && Weight(nodes) <= bound
    requires forall d :: (NamedDirectory(d).Some? && Weight(NamedDirectory(d).value.directories) < bound) ==>
        r(d) == s(d)
    ensures ExpandNodes(r, nodes) == ExpandNodes(s, nodes)
    ensures Entries(r, nodes) == Entries(s, nodes)
    decreases Weight(nodes), |nodes|
  {
    if nodes != [] {
      var d := nodes[0].digest;
      if NamedDirectory(d).Some? {
        WeightOfNamed(nodes[0]);
        AgreeBelow(r, s, NamedDirectory(d).value.directories, bound);
      }
      AgreeBelow(r, s, nodes[1..], bound);
    }
  }

  /** The Directories that unpacking makes readable below the root: the children of the Tree and the empty Directory. */
  function ChildPool(tree: Tree): seq<Directory> {
    tree.children + [EMPTY_DIRECTORY]
  }

  /** A Tree holds every child it refers to. */
  ghost predicate CompleteTree(algorithm: Algorithm, tree: Tree) {
    TreeResolverFaithful(algorithm, ChildPool(tree));
    Closed(TreeResolver(algorithm, ChildPool(tree)), tree.root.directories)
  }

  lemma PoolAgreesWithUnpacked(cas: Cas, fn: Function, tree: Tree, d: Digest)
    requires ContentAddressed(cas) && HoldsNoDirectory(cas)
    requires NamedDirectory(d).Some? && Weight(NamedDirectory(d).value.directories) < Weight(tree.root.directories)
    ensures CasResolver(Unpack(cas, fn, tree), fn)(d) == TreeResolver(fn.algorithm, ChildPool(tree))(d)
  {
    var r, s := CasResolver(Unpack(cas, fn, tree), fn), TreeResolver(fn.algorithm, ChildPool(tree));
    UnpackKeeps(cas, fn, tree);
    TreeResolverFaithful(fn.algorithm, ChildPool(tree));
    if r(d).Some? {
      UnpackedReadableOnly(cas, fn, tree, d);
      var x :| x in [tree.root] + tree.children + [EMPTY_DIRECTORY] && d == DigestOf(fn.algorithm, DirectoryWire(x));
      assert x != tree.root;
      assert x in ChildPool(tree);
      FindSound(fn.algorithm, ChildPool(tree), d);
    }
    if s(d).Some? {
      FindSound(fn.algorithm, ChildPool(tree), d);
      if s(d).value in tree.children {
        UnpackedReadable(cas, fn, tree, s(d).value);
      }
    }
  }

  /** Unpacked into a CAS without Directories, a Tree can be expanded again exactly when it was complete. */
  lemma UnpackedExpandsIffComplete(cas: Cas, fn: Function, tree: Tree)
    requires ContentAddressed(cas) && HoldsNoDirectory(cas)
    ensures Named(CasResolver(Unpack(cas, fn, tree), fn))
    ensures ExpandNodes(CasResolver(Unpack(cas, fn, tree), fn), tree.root.directories).Some? <==>
        CompleteTree(fn.algorithm, tree)
  {
    var r, s := CasResolver(Unpack(cas, fn, tree), fn), TreeResolver(fn.algorithm, ChildPool(tree));
    UnpackKeeps(cas, fn, tree);
    TreeResolverFaithful(fn.algorithm, ChildPool(tree));
    forall d | NamedDirectory(d).Some? && Weight(NamedDirectory(d).value.directories) < Weight(tree.root.directories)
      ensures r(d) == s(d)
    {
      PoolAgreesWithUnpacked(cas, fn, tree, d);
    }
    AgreeBelow(r, s, tree.root.directories, Weight(tree.root.directories));
    ExpandSucceedsIffClosed(s, tree.root.directories);
  }

  /**
    A complete Tree, unpacked into any CAS, expands there, and the hierarchy read from the CAS is the one of the Tree.
   */
  lemma UnpackedKeepsMeaning(cas: Cas, fn: Function, tree: Tree)
    requires ContentAddressed(cas)
    requires CompleteTree(fn.algorithm, tree)
    ensures Named(CasResolver(Unpack(cas, fn, tree), fn)) && Named(TreeResolver(fn.algorithm, ChildPool(tree)))
    ensures ExpandNodes(CasResolver(Unpack(cas, fn, tree), fn), tree.root.directories) ==
        Some(Preorder(tree.root.directories))
    ensures HierarchyOf(CasResolver(Unpack(cas, fn, tree), fn), tree.root) ==
            HierarchyOf(TreeResolver(fn.algorithm, ChildPool(tree)), tree.root)
  {
    var r, s := CasResolver(Unpack(cas, fn, tree), fn), TreeResolver(fn.algorithm, ChildPool(tree));
    UnpackKeeps(cas, fn, tree);
    TreeResolverFaithful(fn.algorithm, ChildPool(tree));
    ExpandSucceedsIffClosed(s, tree.root.directories);
    forall d | s(d).Some? ensures r(d).Some? {
      FindSound(fn.algorithm, ChildPool(tree), d);
      if s(d).value in tree.children {
        UnpackedReadable(cas, fn, tree, s(d).value);
      }
    }
    MoreResolves(s, r, tree.root.directories);
    ExpandIsPreorder(s, tree.root.directories);
  }

  /**
    Packing a root and unpacking the Tree elsewhere is the identity on closures: the root digest can be read there,
    and every path of entries leads to the same Directory as before.
   */
  lemma PackUnpackIdentity(source: Cas, target: Cas, fn: Function, root: Directory)
    requires ContentAddressed(source) && ContentAddressed(target)
    requires Named(CasResolver(source, fn)) && ExpandNodes(CasResolver(source, fn), root.directories).Some?
    ensures
      var tree := Tree(root, ExpandNodes(CasResolver(source, fn), root.directories).value);
      var r := CasResolver(Unpack(target, fn, tree), fn);
      && r(DigestOf(fn.algorithm, DirectoryWire(root))) == Some(root)
      && (forall path: seq<nat> :: path != [] ==>
          Walk(r, root.directories, path) == Walk(CasResolver(source, fn), root.directories, path))
  {
    var s := CasResolver(source, fn);
    var tree := Tree(root, ExpandNodes(s, root.directories).value);
    var r := CasResolver(Unpack(target, fn, tree), fn);
    CasResolverFaithful(source, fn);
    UnpackKeeps(target, fn, tree);
    UnpackedReadable(target, fn, tree, root);
    ExpandIsPreorder(s, root.directories);
    forall d | s(d).Some? && s(d).value in Preorder(root.directories) ensures r(d) == s(d) {
      UnpackedReadable(target, fn, tree, s(d).value);
    }
    forall path: seq<nat> | path != [] ensures Walk(r, root.directories, path) == Walk(s, root.directories, path) {
      SameWalk(s, r, root.directories, path);
    }
  }

  lemma {:induction false} SameWalk(s: Resolver, r: Resolver, nodes: seq<DirectoryNode>, path: seq<nat>)
    requires Named(s) && ExpandNodes(s, nodes).Some? && path != []
    requires forall d :: s(d).Some? && s(d).value in Preorder(nodes) ==> r(d) == s(d)
    ensures Walk(r, nodes, path) == Walk(s, nodes, path)
    decreases path
  {
    if path[0] < |nodes| {
      ExpandedNode(s, nodes, path[0]);
      var directory := s(nodes[path[0]].digest).value;
      PreorderHolds(s, nodes, path[0]);
      if |path| > 1 {
        SameWalk(s, r, directory.directories, path[1..]);
      }
    }
  }

  /** The preorder listing contains the Directory of each node and the listing below it. */
  lemma {:induction false} PreorderHolds(s: Resolver, nodes: seq<DirectoryNode>, i: nat)
    requires Named(s) && i < |nodes| && s(nodes[i].digest).Some?
    ensures s(nodes[i].digest).value in Preorder(nodes)
    ensures forall x :: x in Preorder(s(nodes[i].digest).value.directories) ==> x in Preorder(nodes)
    decreases |nodes|
  {
    if i == 0 {
      assert Preorder(nodes) == NodePreorder(nodes[0]) + Preorder(nodes[1..]);
    } else {
      PreorderHolds(s, nodes[1..], i - 1);
    }
  }
}
