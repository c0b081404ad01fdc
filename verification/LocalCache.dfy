/** The local runtime cache of a revision: verifying a tree and publishing one (runtime/cache.py). */
module LocalCache {
  import opened Prelude
  import opened Segments
  import opened SourcePaths
  import opened Manifest
  import opened Store

  const MAX_MATERIALIZE_ATTEMPTS := 3

  /** What lstat sees of one entry below a tree's root. */
  datatype Kind = File(content: Bytes) | Directory | SymbolicLink | Special

  /** A tree's entries by relative path. */
  type Tree = map<string, Kind>

  /** What occupies a slot: nothing, something that is no directory, or a tree. */
  datatype Occupant = Absent | NotATree | Tree(nodes: Tree)

  /** Every entry sits in directories. */
  predicate WellFormedTree(nodes: Tree) {
    forall p, k :: p in nodes && 0 < k < |Split(p)| ==> Node(p, k) in nodes && nodes[Node(p, k)] == Directory
  }

  predicate WellFormedOccupant(o: Occupant) { o.Tree? ==> WellFormedTree(o.nodes) }

  /** The directories some files sit under. */
  function DirectoriesOf(paths: set<string>): set<string> {
    set p, k | p in paths && 0 < k < |Split(p)| :: Node(p, k)
  }

  ghost predicate Held(h: Hashing, nodes: Tree, e: Entry) {
    e.path in nodes && nodes[e.path].File? && Matches(h, e, nodes[e.path].content)
  }

  /** A tree is exactly its manifest's files and their ancestor directories. */
  ghost predicate Exact(h: Hashing, o: Occupant, entries: seq<Entry>) {
    && o.Tree?
    && o.nodes.Keys == PathsOf(entries) + DirectoriesOf(PathsOf(entries))
    && (forall d :: d in DirectoriesOf(PathsOf(entries)) && d in o.nodes ==> o.nodes[d] == Directory)
    && (forall e :: e in entries ==> Held(h, o.nodes, e))
  }

  // ----- Verifying -----------------------------------------------------------------------------------

  datatype Flaw =
    | MissingRoot
    | SymlinkAt(path: string)
    | UnexpectedEntry(path: string)
    | MissingEntry(path: string)
    | WrongSize(path: string)
    | WrongChecksum(path: string)

  predicate Fits(nodes: Tree, p: string, paths: set<string>, directories: set<string>)
    requires p in nodes
  {
    (nodes[p] == Directory && p in directories) || (nodes[p].File? && p in paths)
  }

  function Misfits(nodes: Tree, among: set<string>, paths: set<string>, directories: set<string>): set<string> {
    set p | p in among && p in nodes && !Fits(nodes, p, paths, directories)
  }

  function FilesIn(nodes: Tree, among: set<string>, paths: set<string>): set<string> {
    set p | p in among && p in nodes && nodes[p].File? && p in paths
  }

  /** The flaw one entry on disk is, if it does not fit. */
  function MisfitOf(nodes: Tree, p: string, paths: set<string>, directories: set<string>): (flaw: Option<Flaw>)
    requires p in nodes
    ensures flaw.None? <==> Fits(nodes, p, paths, directories)
  {
    match nodes[p]
    case SymbolicLink => Some(SymlinkAt(p))
    case Directory => if p in directories then None else Some(UnexpectedEntry(p))
    case Special => Some(UnexpectedEntry(p))
    case File(_) => if p in paths then None else Some(UnexpectedEntry(p))
  }

  lemma {:induction false} JudgedNext(nodes: Tree, seen: set<string>, p: string, paths: set<string>,
                                      directories: set<string>)
    requires p in nodes
    ensures Misfits(nodes, seen + {p}, paths, directories)
         == Misfits(nodes, seen, paths, directories) + (if Fits(nodes, p, paths, directories) then {} else {p})
    ensures FilesIn(nodes, seen + {p}, paths)
         == FilesIn(nodes, seen, paths) + (if nodes[p].File? && p in paths then {p} else {})
  {
  }

  /** The pass over what is on disk: everything that does not fit is a flaw. */
  method JudgeNodes(nodes: Tree, paths: set<string>, directories: set<string>)
    returns (flaws: seq<Flaw>, flagged: set<string>, found: set<string>)
    ensures flaws == [] <==> flagged == {}
    ensures flagged == Misfits(nodes, nodes.Keys, paths, directories)
    ensures found == FilesIn(nodes, nodes.Keys, paths)
  {
    flaws, flagged, found := [], {}, {};
    var left := nodes.Keys;
    while left != {}
      invariant left <= nodes.Keys
      invariant flaws == [] <==> flagged == {}
      invariant flagged == Misfits(nodes, nodes.Keys - left, paths, directories)
      invariant found == FilesIn(nodes, nodes.Keys - left, paths)
      decreases |left|
    {
      var p :| p in left;
      JudgedNext(nodes, nodes.Keys - left, p, paths, directories);
      assert nodes.Keys - (left - {p}) == nodes.Keys - left + {p};
      left := left - {p};
      var misfit := MisfitOf(nodes, p, paths, directories);
      if misfit.Some? {
        flaws, flagged := flaws + [misfit.value], flagged + {p};
      } else if nodes[p].File? {
        found := found + {p};
      }
    }
    assert nodes.Keys - left == nodes.Keys;
  }

  /** What one found file's size and content come to, read at most one byte past the recorded size. */
  method JudgeFile(h: Hashing, e: Entry, content: Bytes) returns (flaw: Option<Flaw>)
    requires e.size >= 0
    ensures flaw.None? <==> Matches(h, e, content)
    ensures |content| != e.size <==> flaw == Some(WrongSize(e.path))
  {
    if |content| != e.size {
      return Some(WrongSize(e.path));
    }
    BoundedMatches(h, e, content);
    if |Bounded(content, e.size)| != e.size {
      return Some(WrongSize(e.path));
    }
    return if Sha(h, Bounded(content, e.size)) != e.sha256 then Some(WrongChecksum(e.path)) else None;
  }

  ghost predicate Answered(h: Hashing, nodes: Tree, found: set<string>, flagged: set<string>, e: Entry) {
    if e.path in found then Held(h, nodes, e) else e.path in flagged
  }

  method JudgeEntries(h: Hashing, nodes: Tree, entries: seq<Entry>, found: set<string>, flagged: set<string>)
    returns (flaws: seq<Flaw>)
    requires (forall e :: e in entries ==> e.size >= 0) && forall p :: p in found ==> p in nodes && nodes[p].File?
    ensures flaws == [] <==> forall e :: e in entries ==> Answered(h, nodes, found, flagged, e)
  {
    flaws := [];
    for i := 0 to |entries|
      invariant flaws == [] <==> forall e :: e in entries[..i] ==> Answered(h, nodes, found, flagged, e)
    {
      var e := entries[i];
      assert entries[..i + 1] == entries[..i] + [e];
      assert e in entries && e in entries[..i + 1];
      if e.path !in found {
        if e.path !in flagged {
          flaws := flaws + [MissingEntry(e.path)];
        }
        continue;
      }
      var flaw := JudgeFile(h, e, nodes[e.path].content);
      if flaw.Some? {
        flaws := flaws + [flaw.value];
      }
    }
    assert entries[..|entries|] == entries;
  }

  /** A tree whose entries all fit and hold what is recorded is exact, and the other way round. */
  lemma {:induction false} FittingIsExact(h: Hashing, nodes: Tree, entries: seq<Entry>)
    requires WellFormedTree(nodes)
    ensures var paths := PathsOf(entries);
      Exact(h, Tree(nodes), entries) <==>
      && (forall p :: p in nodes ==> Fits(nodes, p, paths, DirectoriesOf(paths)))
      && (forall e :: e in entries ==> Held(h, nodes, e))
  {
    var paths := PathsOf(entries);
    if (forall p :: p in nodes ==> Fits(nodes, p, paths, DirectoriesOf(paths)))
       && forall e :: e in entries ==> Held(h, nodes, e)
    {
      forall p | p in paths ensures p in nodes {
        var e :| e in entries && e.path == p;
      }
      forall d | d in DirectoriesOf(paths) ensures d in nodes && nodes[d] == Directory {
        var p, k :| p in paths && 0 < k < |Split(p)| && Node(p, k) == d;
      }
    }
    if Exact(h, Tree(nodes), entries) {
      forall p | p in nodes ensures Fits(nodes, p, paths, DirectoriesOf(paths)) {
        if p in paths {
          var e :| e in entries && e.path == p;
          assert Held(h, nodes, e);
        }
      }
    }
  }

  /** verify_local_tree: no flaw exactly when the tree is exact. */
  method VerifyLocalTree(h: Hashing, o: Occupant, entries: seq<Entry>) returns (flaws: seq<Flaw>)
    requires WellFormedOccupant(o) && forall e :: e in entries ==> e.size >= 0
    ensures flaws == [] <==> Exact(h, o, entries)
    ensures flaws == [MissingRoot] <== !o.Tree?
  {
    if !o.Tree? {
      return [MissingRoot];
    }
    var paths := PathsOf(entries);
    var unfit, flagged, found := JudgeNodes(o.nodes, paths, DirectoriesOf(paths));
    var unheld := JudgeEntries(h, o.nodes, entries, found, flagged);
    flaws := unfit + unheld;
    FittingIsExact(h, o.nodes, entries);
    NoFlaws(h, o.nodes, entries, flagged, found);
  }

  lemma {:induction false} NoFlaws(h: Hashing, nodes: Tree, entries: seq<Entry>, flagged: set<string>,
                                   found: set<string>)
    requires flagged == Misfits(nodes, nodes.Keys, PathsOf(entries), DirectoriesOf(PathsOf(entries)))
    requires found == FilesIn(nodes, nodes.Keys, PathsOf(entries))
    ensures flagged == {} <==>
              forall p :: p in nodes ==> Fits(nodes, p, PathsOf(entries), DirectoriesOf(PathsOf(entries)))
    ensures flagged == {} ==>
              forall e :: e in entries ==> (Answered(h, nodes, found, flagged, e) <==> Held(h, nodes, e))
  {
    assert forall e :: e in entries ==> e.path in PathsOf(entries);
    if flagged == {} {
      forall p | p in nodes ensures Fits(nodes, p, PathsOf(entries), DirectoriesOf(PathsOf(entries))) {
        assert p !in flagged;
      }
    }
  }

  // ----- Purging compiled files ----------------------------------------------------------------------

  function NameOf(path: string): string { Split(path)[|Split(path)| - 1] }

  /** A compiled file, or anything in a bytecode directory. */
  predicate CompiledNode(u: Unicode, nodes: Tree, p: string)
    requires p in nodes
  {
    || (nodes[p] != Directory && (EndsWith(Lower(u, NameOf(p)), ".pyc") || EndsWith(Lower(u, NameOf(p)), ".pyo")))
    || (exists k :: 0 < k <= |Split(p)| && Lower(u, Split(p)[k - 1]) == "__pycache__"
                    && Node(p, k) in nodes && nodes[Node(p, k)] == Directory)
  }

  /** _purge_bytecode's effect on a tree. */
  function Purged(u: Unicode, nodes: Tree): Tree {
    map p | p in nodes && !CompiledNode(u, nodes, p) :: nodes[p]
  }

  /**
   After the purge no compiled file is left under any letter case, nor any bytecode directory or
   anything in one; everything else is there as it was.
   */
  lemma {:induction false} PurgeIsExact(u: Unicode, nodes: Tree, p: string)
    requires WellFormedTree(nodes) && p in nodes
    ensures p in Purged(u, nodes) ==> Purged(u, nodes)[p] == nodes[p]
    ensures p !in Purged(u, nodes) <==>
              || (!nodes[p].Directory?
                  && var name := Lower(u, Split(p)[|Split(p)| - 1]);
                     4 <= |name| && name[|name| - 4..] in {".pyc", ".pyo"})
              || (nodes[p].Directory? && Lower(u, Split(p)[|Split(p)| - 1]) == "__pycache__")
              || (exists k :: 0 <= k < |Split(p)| - 1 && Lower(u, Split(p)[k]) == "__pycache__")
  {
    var name := Lower(u, NameOf(p));
    assert EndsWith(name, ".pyc") <==> 4 <= |name| && name[|name| - 4..] == ".pyc";
    assert EndsWith(name, ".pyo") <==> 4 <= |name| && name[|name| - 4..] == ".pyo";
    WholeNode(p);
    if k :| 0 <= k < |Split(p)| - 1 && Lower(u, Split(p)[k]) == "__pycache__" {
      assert Node(p, k + 1) in nodes && nodes[Node(p, k + 1)] == Directory;
      assert Lower(u, Split(p)[(k + 1) - 1]) == "__pycache__";
    }
    if nodes[p].Directory? && Lower(u, Split(p)[|Split(p)| - 1]) == "__pycache__" {
      assert Node(p, |Split(p)|) in nodes;
    }
  }

  lemma {:induction false} PurgedIsWellFormed(u: Unicode, nodes: Tree)
    requires WellFormedTree(nodes)
    ensures WellFormedTree(Purged(u, nodes))
  {
    forall p, k | p in Purged(u, nodes) && 0 < k < |Split(p)|
      ensures Node(p, k) in Purged(u, nodes) && Purged(u, nodes)[Node(p, k)] == Directory
    {
      var d := Node(p, k);
      assert d in nodes && nodes[d] == Directory;
      NodeSegments(p, k);
      forall j | 0 < j <= |Split(d)| ensures Node(d, j) == Node(p, j) && Split(d)[j - 1] == Split(p)[j - 1] {
        assert Split(d)[..j] == Split(p)[..j];
      }
    }
  }

  /** The purge takes nothing from an exact tree: no canonical path names a compiled file. */
  lemma {:induction false} PurgeSparesExactTrees(u: Unicode, h: Hashing, o: Occupant, entries: seq<Entry>)
    requires Exact(h, o, entries) && forall e :: e in entries ==> Normalize(u, e.path) == Ok(e.path)
    requires Lawful(u)
    ensures Purged(u, o.nodes) == o.nodes
  {
    forall p | p in o.nodes ensures !CompiledNode(u, o.nodes, p) {
      SparesNode(u, h, o, entries, p);
    }
  }

  lemma {:induction false} SparesNode(u: Unicode, h: Hashing, o: Occupant, entries: seq<Entry>, p: string)
    requires Lawful(u) && Exact(h, o, entries) && p in o.nodes
    requires forall e :: e in entries ==> Normalize(u, e.path) == Ok(e.path)
    ensures !CompiledNode(u, o.nodes, p)
  {
    if p in PathsOf(entries) {
      var e :| e in entries && e.path == p;
      NotCompiled(u, p);
    } else {
      var q, k :| q in PathsOf(entries) && 0 < k < |Split(q)| && Node(q, k) == p;
      var e :| e in entries && e.path == q;
      NotCompiled(u, q);
      NodeSegments(q, k);
      assert o.nodes[p] == Directory;
      assert forall j :: 0 <= j < |Split(p)| ==> Split(p)[j] == Split(q)[j];
    }
  }

  lemma {:induction false} NotCompiled(u: Unicode, path: string)
    requires Lawful(u) && Normalize(u, path) == Ok(path)
    ensures !Compiled(u, Split(path))
  {
    CanonicalSegments(u, path, path);
  }

  // ----- Filling a staging tree -------------------------------------------------------------------------

  /** A tree with one more file, its missing parents made. */
  function WithFile(nodes: Tree, path: string, content: Bytes): Tree {
    var directories := map d | d in DirectoriesOf({path}) + nodes.Keys :: if d in nodes then nodes[d] else Directory;
    directories[path := File(content)]
  }

  lemma {:induction false} PathsAdded(entries: seq<Entry>, i: nat)
    requires i < |entries|
    ensures var before, after := PathsOf(entries[..i]), PathsOf(entries[..i + 1]);
      && after == before + {entries[i].path}
      && DirectoriesOf(after) == DirectoriesOf(before) + DirectoriesOf({entries[i].path})
  {
    var before, after := entries[..i], entries[..i + 1];
    assert after == before + [entries[i]];
    assert PathsOf(after) == PathsOf(before) + {entries[i].path};
    assert DirectoriesOf(PathsOf(after)) == DirectoriesOf(PathsOf(before)) + DirectoriesOf({entries[i].path});
  }

  lemma {:induction false} FilesHeld(h: Hashing, nodes: Tree, entries: seq<Entry>, i: nat, content: Bytes)
    requires i < |entries| && DistinctPaths(entries) && Matches(h, entries[i], content)
    requires forall e :: e in entries[..i] ==> Held(h, nodes, e)
    ensures forall e :: e in entries[..i + 1] ==> Held(h, WithFile(nodes, entries[i].path, content), e)
  {
    forall e | e in entries[..i + 1] ensures Held(h, WithFile(nodes, entries[i].path, content), e) {
      assert entries[..i + 1] == entries[..i] + [entries[i]];
      if e != entries[i] {
        var k :| 0 <= k < i && entries[k] == e;
        assert Held(h, nodes, e);
      }
    }
  }

  lemma {:induction false} FileAdded(h: Hashing, nodes: Tree, entries: seq<Entry>, i: nat, content: Bytes)
    requires i < |entries| && DistinctPaths(entries) && Apart(entries)
    requires Exact(h, Tree(nodes), entries[..i]) && Matches(h, entries[i], content)
    ensures Exact(h, Tree(WithFile(nodes, entries[i].path, content)), entries[..i + 1])
  {
    var more := WithFile(nodes, entries[i].path, content);
    PathsAdded(entries, i);
    forall d | d in DirectoriesOf(PathsOf(entries[..i + 1])) ensures d in more && more[d] == Directory {
      DirectoryIsNoFile(entries, i, d);
    }
    FilesHeld(h, nodes, entries, i, content);
  }

  /** No file stands where another needs a directory. */
  ghost predicate Apart(entries: seq<Entry>) {
    PathsOf(entries) !! DirectoriesOf(PathsOf(entries))
  }

  lemma {:induction false} CoexistingAreApart(u: Unicode, entries: seq<Entry>)
    requires Coexist(u, PathsOf(entries))
    ensures Apart(entries)
  {
    forall q, k | q in PathsOf(entries) && 0 < k < |Split(q)| ensures Node(q, k) !in PathsOf(entries) {
      assert !Blocked(PathsOf(entries), q);
    }
  }

  lemma {:induction false} DirectoryIsNoFile(entries: seq<Entry>, i: nat, d: string)
    requires i < |entries| && Apart(entries) && d in DirectoriesOf(PathsOf(entries[..i + 1]))
    ensures d !in PathsOf(entries)
  {
    var p, k :| p in PathsOf(entries[..i + 1]) && 0 < k < |Split(p)| && Node(p, k) == d;
    var e :| e in entries[..i + 1] && e.path == p;
    assert e in entries && p in PathsOf(entries);
    assert d in DirectoriesOf(PathsOf(entries));
  }

  lemma {:induction false} EmptyTreeIsExact(h: Hashing)
    ensures Exact(h, Tree(map[]), [])
  {
  }

  datatype CacheFailure =
    | ContentFailed(failure: Failure)
    | LocalFailure
    | GaveUp(flaws: seq<Flaw>)

  /** The pulls of _fill_staging: whatever is written was measured against its entry. */
  method Pull(h: Hashing, storage: Backend, prefix: string, entries: seq<Entry>) returns (r: Result<Tree, CacheFailure>)
    requires DistinctPaths(entries) && Apart(entries) && forall e :: e in entries ==> e.size >= 0
    ensures r.Ok? ==> Exact(h, Tree(r.value), entries)
    ensures r.Err? ==> r.error.ContentFailed?
    ensures storage.reliable ==> (r.Ok? <==> AllIntact(h, storage.objects, prefix, entries))
  {
    var nodes: Tree := map[];
    EmptyTreeIsExact(h);
    for i := 0 to |entries|
      invariant Exact(h, Tree(nodes), entries[..i]) && AllIntact(h, storage.objects, prefix, entries[..i])
    {
      assert entries[i] in entries;
      assert entries[..i + 1] == entries[..i] + [entries[i]];
      var content := ReadVerified(h, storage, prefix + entries[i].path, entries[i]);
      if content.Err? {
        return Err(ContentFailed(content.error));
      }
      FileAdded(h, nodes, entries, i, content.value);
      nodes := WithFile(nodes, entries[i].path, content.value);
    }
    assert entries[..|entries|] == entries;
    return Ok(nodes);
  }

  // ----- The slot ---------------------------------------------------------------------------------------

  datatype Outcome = Returned | Failed(failure: CacheFailure) | Crashed

  /** What settles an attempt, or lets the next one begin. */
  datatype Attempt = Retry(flaws: seq<Flaw>) | Settled(outcome: Outcome)

  /**
   One revision's cache slot under its lock, the trees set aside beside it, and this builder's
   staging tree. Two fields are history: published is every tree a rename put into the slot, and
   judged is every occupant that failed its check. Unless the host is quiet, a builder may die
   between any two steps, a staging tree may be damaged while it is filled, and the slot may be
   taken or damaged up to the moment a tree in it is verified.
   */
  class Slot {
    const quiet: bool
    var occupant: Occupant
    var locked: bool
    var asides: seq<Occupant>
    var staging: Occupant
    ghost var published: seq<Occupant>
    ghost var judged: seq<Occupant>

    constructor (quiet: bool, occupant: Occupant)
      requires WellFormedOccupant(occupant)
      ensures Valid() && this.quiet == quiet && this.occupant == occupant
      ensures asides == [] && published == [] && judged == []
    {
      this.quiet, this.occupant, locked := quiet, occupant, false;
      asides, staging, published, judged := [], Absent, [], [];
    }

    ghost predicate Valid()
      reads this
    {
      WellFormedOccupant(occupant) && WellFormedOccupant(staging)
    }

    ghost predicate OnlyExactPublished(h: Hashing, entries: seq<Entry>)
      reads this
    {
      forall k :: 0 <= k < |published| ==> Exact(h, published[k], entries)
    }

    method MayCrash() returns (crashed: bool)
      ensures quiet ==> !crashed
    {
      crashed := *;
      crashed := crashed && !quiet;
    }

    /** Anything outside the builders: it may put another occupant in the slot. */
    method Disturb()
      requires Valid()
      modifies this`occupant, this`locked
      ensures Valid() && (quiet ==> occupant == old(occupant) && locked == old(locked))
    {
      var taken: bool := *;
      var other: Occupant := *;
      if taken && !quiet && WellFormedOccupant(other) {
        occupant, locked := other, false;
      }
    }

    /** _set_aside_corrupt. */
    method SetAside() returns (moved: bool)
      requires Valid()
      modifies this`occupant, this`asides
      ensures Valid()
      ensures moved ==> asides == old(asides) + [old(occupant)] && occupant == Absent
      ensures !moved ==> !quiet && asides == old(asides) && occupant == old(occupant)
    {
      moved := *;
      moved := moved || quiet;
      if moved {
        asides, occupant := asides + [occupant], Absent;
      }
    }

    /** _make_read_only. */
    method MakeReadOnly() returns (done: bool)
      modifies this`locked
      ensures done ==> locked
      ensures quiet ==> done
    {
      done := *;
      done := done || quiet;
      locked := locked || done;
    }

    /** verify_local_tree on a host where the inspection itself may fail. */
    method Inspect(h: Hashing, o: Occupant, entries: seq<Entry>) returns (r: Result<seq<Flaw>, CacheFailure>)
      requires WellFormedOccupant(o) && forall e :: e in entries ==> e.size >= 0
      ensures r.Ok? ==> (r.value == [] <==> Exact(h, o, entries))
      ensures r.Err? ==> !quiet && r.error == LocalFailure
    {
      var readable: bool := *;
      if !readable && !quiet {
        return Err(LocalFailure);
      }
      var flaws := VerifyLocalTree(h, o, entries);
      return Ok(flaws);
    }

    /**
     _existing_tree_verifies: a hit keeps the tree, purged of nothing it should hold; a miss leaves
     the slot free, with what failed there set aside.
     */
    method ExistingTreeVerifies(u: Unicode, h: Hashing, entries: seq<Entry>) returns (r: Result<bool, CacheFailure>)
      requires Valid() && forall e :: e in entries ==> e.size >= 0
      modifies this`occupant, this`asides, this`judged
      ensures Valid() && old(asides) <= asides
      ensures r == Ok(true) ==> Exact(h, occupant, entries) && occupant == PurgedOccupant(u, old(occupant))
      ensures r == Ok(true) ==> asides == old(asides) && judged == old(judged)
      ensures r == Ok(false) ==> occupant == Absent && !Exact(h, PurgedOccupant(u, old(occupant)), entries)
      ensures r == Ok(false) ==> asides == old(asides) + Condemned(u, old(occupant))
                                 && judged == old(judged) + Condemned(u, old(occupant))
      ensures r.Err? ==> r.error == LocalFailure && !quiet && asides == old(asides)
      ensures r.Err? ==> occupant in {old(occupant), PurgedOccupant(u, old(occupant))}
      ensures r.Err? ==> judged == old(judged) || (judged == old(judged) + [occupant] && !Exact(h, occupant, entries))
    {
      var purged: bool := *;
      if !purged && !quiet {
        return Err(LocalFailure);
      }
      if occupant.Tree? {
        PurgedIsWellFormed(u, occupant.nodes);
        occupant := Tree(Purged(u, occupant.nodes));
      }
      if occupant.Absent? {
        return Ok(false);
      }
      var inspected := Inspect(h, occupant, entries);
      if inspected.Err? {
        return Err(inspected.error);
      }
      if inspected.value == [] {
        return Ok(true);
      }
      judged := judged + [occupant];
      var moved := SetAside();
      return if moved then Ok(false) else Err(LocalFailure);
    }

    /** Filling the staging tree, on a host that may damage it meanwhile. */
    method FillStaging(h: Hashing, storage: Backend, prefix: string, entries: seq<Entry>)
      returns (r: Result<(), CacheFailure>)
      requires Valid() && DistinctPaths(entries) && Apart(entries) && forall e :: e in entries ==> e.size >= 0
      modifies this`staging
      ensures Valid()
      ensures quiet && storage.reliable && AllIntact(h, storage.objects, prefix, entries) ==>
                r.Ok? && Exact(h, staging, entries) && WellFormedOccupant(staging)
      ensures storage.reliable && !AllIntact(h, storage.objects, prefix, entries) ==> r.Err?
      ensures r.Err? ==> staging == Absent && r.error.ContentFailed?
    {
      staging := Absent;
      var pulled := Pull(h, storage, prefix, entries);
      if pulled.Err? {
        return Err(pulled.error);
      }
      var damaged: Occupant := *;
      ExactIsWellFormed(h, Tree(pulled.value), entries);
      staging := Tree(pulled.value);
      if !quiet && WellFormedOccupant(damaged) {
        staging := damaged;
      }
      return Ok(());
    }

    /** _publish, of a staging tree that was verified: one rename, or the judgement of whoever took the slot. */
    method Publish(h: Hashing, entries: seq<Entry>) returns (r: Result<(), CacheFailure>)
      requires Valid() && Exact(h, staging, entries) && OnlyExactPublished(h, entries)
      requires forall e :: e in entries ==> e.size >= 0
      modifies this`occupant, this`staging, this`published, this`locked
      ensures Valid() && OnlyExactPublished(h, entries) && old(published) <= published
      ensures r.Ok? ==> Exact(h, occupant, entries)
      ensures r.Err? ==> r.error == LocalFailure
      ensures occupant != old(occupant) ==> old(occupant) in {Absent, Tree(map[])} && occupant == old(staging)
      ensures old(occupant) == Absent ==> r.Ok?
    {
      if occupant == Absent || occupant == Tree(map[]) {
        published := published + [staging];
        occupant, locked, staging := staging, false, Absent;
        return Ok(());
      }
      var inspected := Inspect(h, occupant, entries);
      if inspected.Err? {
        return Err(inspected.error);
      }
      return if inspected.value == [] then Ok(()) else Err(LocalFailure);
    }

    /** One attempt of materialize_revision, from the check of the slot to the write-protected tree. */
    method AttemptOnce(u: Unicode, h: Hashing, storage: Backend, prefix: string, entries: seq<Entry>)
      returns (a: Attempt)
      requires Valid() && OnlyExactPublished(h, entries) && DistinctPaths(entries) && Apart(entries)
      requires forall e :: e in entries ==> e.size >= 0
      modifies this
      ensures Valid() && OnlyExactPublished(h, entries) && old(published) <= published && old(asides) <= asides
      ensures a == Settled(Returned) ==> Exact(h, occupant, entries) && locked
      ensures a != Settled(Crashed) ==> staging == Absent
      ensures a.Settled? && a.outcome.Failed? ==> !a.outcome.failure.GaveUp?
      ensures quiet && storage.reliable && AllIntact(h, storage.objects, prefix, entries) ==> a == Settled(Returned)
      ensures quiet && !Exact(h, PurgedOccupant(u, old(occupant)), entries) ==>
                asides == old(asides) + Condemned(u, old(occupant))
      ensures old(judged) <= judged
      ensures KeptAside(h, entries, old(judged), judged, old(asides), asides, occupant,
                        a == Settled(Failed(LocalFailure)))
    {
      staging := Absent;
      var hit := ExistingTreeVerifies(u, h, entries);
      if hit.Err? {
        return Settled(Failed(hit.error));
      }
      if hit.value {
        var done := MakeReadOnly();
        return Settled(if done then Returned else Failed(LocalFailure));
      }
      a := BuildOnce(h, storage, prefix, entries);
    }

    method BuildOnce(h: Hashing, storage: Backend, prefix: string, entries: seq<Entry>) returns (a: Attempt)
      requires Valid() && OnlyExactPublished(h, entries) && DistinctPaths(entries) && Apart(entries)
               && occupant == Absent
      requires forall e :: e in entries ==> e.size >= 0
      modifies this`occupant, this`locked, this`staging, this`published
      ensures Valid() && OnlyExactPublished(h, entries) && old(published) <= published
      ensures a == Settled(Returned) ==> Exact(h, occupant, entries) && locked
      ensures a != Settled(Crashed) ==> staging == Absent
      ensures a.Settled? && a.outcome.Failed? ==> !a.outcome.failure.GaveUp?
      ensures quiet && storage.reliable && AllIntact(h, storage.objects, prefix, entries) ==> a == Settled(Returned)
    {
      var filled := FillStaging(h, storage, prefix, entries);
      if filled.Err? {
        return Settled(Failed(filled.error));
      }
      var died := MayCrash();
      if died {
        return Settled(Crashed);
      }
      var inspected := Inspect(h, staging, entries);
      if inspected.Err? {
        staging := Absent;
        return Settled(Failed(inspected.error));
      }
      if inspected.value != [] {
        staging := Absent;
        return Retry(inspected.value);
      }
      a := PublishOnce(h, entries);
    }

    method PublishOnce(h: Hashing, entries: seq<Entry>) returns (a: Attempt)
      requires Valid() && OnlyExactPublished(h, entries) && Exact(h, staging, entries)
      requires forall e :: e in entries ==> e.size >= 0
      modifies this`occupant, this`locked, this`staging, this`published
      ensures Valid() && OnlyExactPublished(h, entries) && old(published) <= published && !a.Retry?
      ensures a == Settled(Returned) ==> Exact(h, occupant, entries) && locked
      ensures a != Settled(Crashed) ==> staging == Absent
      ensures a.Settled? && a.outcome.Failed? ==> !a.outcome.failure.GaveUp?
      ensures quiet && old(occupant) == Absent ==> a == Settled(Returned)
    {
      Disturb();
      var moved := Publish(h, entries);
      var died := MayCrash();
      if died {
        return Settled(Crashed);
      }
      staging := Absent;
      if moved.Err? {
        return Settled(Failed(moved.error));
      }
      var done := MakeReadOnly();
      return Settled(if done then Returned else Failed(LocalFailure));
    }

    /**
     materialize_revision, once the slot is locked. It returns only a write-protected tree that is
     exactly the manifest's, never publishes any other, and takes at most three attempts. On every
     host each occupant that failed its check is set aside for good, or is still in the slot when
     moving it failed, and nothing else is set aside. On a quiet host with intact stored content
     the first attempt returns.
     */
    method Materialize(u: Unicode, h: Hashing, storage: Backend, storageKey: string, digest: string, m: StoredManifest)
      returns (outcome: Outcome, attempts: nat)
      requires Valid() && Lawful(u) && Hexadecimal(h)
      requires Trusted(u, h, m, Some(digest)) ==> OnlyExactPublished(h, ReadAll(u, m.entries))
      modifies this
      ensures Valid() && old(published) <= published && old(asides) <= asides && attempts <= MAX_MATERIALIZE_ATTEMPTS
      ensures !Trusted(u, h, m, Some(digest)) ==>
                outcome.Failed? && occupant == old(occupant) && published == old(published)
                && judged == old(judged) && asides == old(asides)
      ensures Trusted(u, h, m, Some(digest)) ==> OnlyExactPublished(h, ReadAll(u, m.entries))
      ensures outcome == Returned ==>
                Trusted(u, h, m, Some(digest)) && Exact(h, occupant, ReadAll(u, m.entries)) && locked
      ensures outcome.Failed? && outcome.failure.GaveUp? ==> attempts == MAX_MATERIALIZE_ATTEMPTS
      ensures old(judged) <= judged
      ensures Trusted(u, h, m, Some(digest)) ==>
                KeptAside(h, ReadAll(u, m.entries), old(judged), judged, old(asides), asides, occupant,
                     outcome == Failed(LocalFailure))
      ensures Trusted(u, h, m, Some(digest)) && quiet ==>
                (Fails(u, h, old(occupant), ReadAll(u, m.entries)) ==> PurgedOccupant(u, old(occupant)) in asides)
      ensures Trusted(u, h, m, Some(digest)) && quiet && storage.reliable ==>
                (AllIntact(h, storage.objects, RevisionPrefix(storageKey, digest).value, ReadAll(u, m.entries)) ==>
                   outcome == Returned && attempts == 1)
    {
      attempts := 0;
      var reasons := ValidateManifest(u, h, m, Some(digest));
      if reasons != [] {
        return Failed(ContentFailed(Untrusted(reasons))), attempts;
      }
      var entries := ReadAll(u, m.entries);
      var prefix := RevisionPrefix(storageKey, digest).value;
      TrustedEntries(u, h, m, digest);
      TrustedAreApart(u, h, m, digest);
      var last: seq<Flaw> := [];
      while attempts < MAX_MATERIALIZE_ATTEMPTS
        invariant attempts <= MAX_MATERIALIZE_ATTEMPTS
        invariant Valid() && OnlyExactPublished(h, entries) && old(published) <= published && old(asides) <= asides
        invariant old(judged) <= judged
        invariant KeptAside(h, entries, old(judged), judged, old(asides), asides, Absent, false)
        invariant quiet && storage.reliable && AllIntact(h, storage.objects, prefix, entries) ==> attempts == 0
        invariant quiet && attempts == 0 ==> occupant == old(occupant)
        invariant quiet && attempts > 0 && Fails(u, h, old(occupant), entries) ==>
                    PurgedOccupant(u, old(occupant)) in asides
      {
        Disturb();
        ghost var judgedBefore, asidesBefore := judged, asides;
        var attempt := AttemptOnce(u, h, storage, prefix, entries);
        attempts := attempts + 1;
        KeptAsideOn(h, entries, old(judged), judgedBefore, judged, old(asides), asidesBefore, asides, occupant,
               attempt == Settled(Failed(LocalFailure)));
        match attempt {
          case Settled(settled) => return settled, attempts;
          case Retry(flaws) => last := flaws;
        }
      }
      return Failed(GaveUp(last)), attempts;
    }
  }

  function PurgedOccupant(u: Unicode, o: Occupant): Occupant {
    if o.Tree? then Tree(Purged(u, o.nodes)) else o
  }

  /** Something is in the slot, and not the manifest's tree even once purged. */
  ghost predicate Fails(u: Unicode, h: Hashing, o: Occupant, entries: seq<Entry>) {
    !o.Absent? && !Exact(h, PurgedOccupant(u, o), entries)
  }

  /**
   Since some moment, every occupant that failed its check is at fault and stands among the trees set
   aside, or as the last one is still in the slot when it could not be moved; and only such
   occupants were set aside.
   */
  ghost predicate KeptAside(h: Hashing, entries: seq<Entry>, judgedBefore: seq<Occupant>, judged: seq<Occupant>,
                       asidesBefore: seq<Occupant>, asides: seq<Occupant>, occupant: Occupant, stuck: bool) {
    && |judgedBefore| <= |judged|
    && (forall k :: |judgedBefore| <= k < |judged| ==>
          && !Exact(h, judged[k], entries)
          && (judged[k] in asides || (stuck && k == |judged| - 1 && occupant == judged[k])))
    && (forall k :: |asidesBefore| <= k < |asides| ==> asides[k] in judged[|judgedBefore|..])
  }

  lemma {:induction false} KeptAsideOn(h: Hashing, entries: seq<Entry>, judged0: seq<Occupant>, judged1: seq<Occupant>,
                                  judged2: seq<Occupant>, asides0: seq<Occupant>, asides1: seq<Occupant>,
                                  asides2: seq<Occupant>, occupant: Occupant, stuck: bool)
    requires judged0 <= judged1 <= judged2 && asides0 <= asides1 <= asides2
    requires KeptAside(h, entries, judged0, judged1, asides0, asides1, Absent, false)
    requires KeptAside(h, entries, judged1, judged2, asides1, asides2, occupant, stuck)
    ensures KeptAside(h, entries, judged0, judged2, asides0, asides2, occupant, stuck)
  {
    forall k | |asides0| <= k < |asides2| ensures asides2[k] in judged2[|judged0|..] {
      if k < |asides1| {
        assert asides1[k] in judged1[|judged0|..];
        assert judged1[|judged0|..] <= judged2[|judged0|..];
      } else {
        assert judged2[|judged1|..] == judged2[|judged0|..][|judged1| - |judged0|..];
      }
    }
  }

  /** What a failed check sets aside: whatever was in the slot. */
  function Condemned(u: Unicode, o: Occupant): seq<Occupant> {
    if o.Absent? then [] else [PurgedOccupant(u, o)]
  }

  lemma {:induction false} ExactIsWellFormed(h: Hashing, o: Occupant, entries: seq<Entry>)
    requires Exact(h, o, entries)
    ensures WellFormedOccupant(o)
  {
    forall p, k | p in o.nodes && 0 < k < |Split(p)| ensures Node(p, k) in o.nodes && o.nodes[Node(p, k)] == Directory {
      assert Node(p, k) in DirectoriesOf(PathsOf(entries)) by {
        if p !in PathsOf(entries) {
          var q, j :| q in PathsOf(entries) && 0 < j < |Split(q)| && Node(q, j) == p;
          NodeSegments(q, j);
          assert Split(p)[..k] == Split(q)[..k];
          assert Node(q, k) == Node(p, k);
        }
      }
    }
  }

  lemma {:induction false} TrustedAreApart(u: Unicode, h: Hashing, m: StoredManifest, digest: string)
    requires Trusted(u, h, m, Some(digest))
    ensures Apart(ReadAll(u, m.entries))
  {
    var entries := ReadAll(u, m.entries);
    assert PathsOf(entries) == ClaimedPaths(u, m.entries) by {
      forall p | p in ClaimedPaths(u, m.entries) ensures p in PathsOf(entries) {
        var k :| 0 <= k < |m.entries| && Claimed(u, m.entries[k]) == Some(p);
        assert entries[k] in entries && entries[k].path == p;
      }
    }
    CoexistingAreApart(u, entries);
  }

  /**
   Over any sequence of builders: every occupant judged at fault is among the trees set aside, save the
   last one of a builder that could not move it and failed. marks[b] counts those judged by then.
   */
  ghost predicate AsidesHeld(judged: seq<Occupant>, asides: seq<Occupant>, outcomes: seq<Outcome>, marks: seq<nat>,
                             from: nat)
  {
    |marks| == |outcomes| && forall k :: from <= k < |judged| ==> judged[k] in asides || LeftBehind(outcomes, marks, k)
  }

  ghost predicate LeftBehind(outcomes: seq<Outcome>, marks: seq<nat>, k: nat)
    requires |marks| == |outcomes|
  {
    exists b :: 0 <= b < |outcomes| && marks[b] == k + 1 && outcomes[b] == Failed(LocalFailure)
  }

  lemma {:induction false} AsidesHeldNext(h: Hashing, entries: seq<Entry>, before: seq<Occupant>, judged: seq<Occupant>,
                                          asidesBefore: seq<Occupant>, asides: seq<Occupant>, occupant: Occupant,
                                          outcomes: seq<Outcome>, marks: seq<nat>, from: nat, outcome: Outcome)
    requires AsidesHeld(before, asidesBefore, outcomes, marks, from) && before <= judged && asidesBefore <= asides
    requires KeptAside(h, entries, before, judged, asidesBefore, asides, occupant, outcome == Failed(LocalFailure))
    ensures AsidesHeld(judged, asides, outcomes + [outcome], marks + [|judged|], from)
  {
    var more, count := outcomes + [outcome], marks + [|judged|];
    forall k | from <= k < |judged| ensures judged[k] in asides || LeftBehind(more, count, k) {
      if k < |before| {
        if LeftBehind(outcomes, marks, k) {
          var b :| 0 <= b < |outcomes| && marks[b] == k + 1 && outcomes[b] == Failed(LocalFailure);
          assert more[b] == outcomes[b] && count[b] == k + 1;
        }
      } else if judged[k] !in asides {
        assert more[|outcomes|] == outcome && count[|outcomes|] == k + 1;
      }
    }
  }

  /** Any sequence of builders, with damage before each and crashes inside any of them. */
  method ManyBuilders(slot: Slot, u: Unicode, h: Hashing, storage: Backend, storageKey: string, digest: string,
                      m: StoredManifest, builders: nat)
    returns (outcomes: seq<Outcome>, ghost marks: seq<nat>)
    requires slot.Valid() && Lawful(u) && Hexadecimal(h) && Trusted(u, h, m, Some(digest))
    requires slot.OnlyExactPublished(h, ReadAll(u, m.entries))
    modifies slot
    ensures slot.Valid() && slot.OnlyExactPublished(h, ReadAll(u, m.entries))
    ensures old(slot.published) <= slot.published && old(slot.asides) <= slot.asides && |outcomes| == builders
    ensures old(slot.judged) <= slot.judged
    ensures AsidesHeld(slot.judged, slot.asides, outcomes, marks, |old(slot.judged)|)
    ensures outcomes != [] && outcomes[builders - 1] == Returned ==>
              Exact(h, slot.occupant, ReadAll(u, m.entries)) && slot.locked
  {
    outcomes, marks := [], [];
    ghost var entries := ReadAll(u, m.entries);
    for i := 0 to builders
      invariant slot.Valid() && slot.OnlyExactPublished(h, entries) && |outcomes| == i
      invariant old(slot.published) <= slot.published && old(slot.asides) <= slot.asides
      invariant old(slot.judged) <= slot.judged
      invariant AsidesHeld(slot.judged, slot.asides, outcomes, marks, |old(slot.judged)|)
      invariant outcomes != [] && outcomes[i - 1] == Returned ==> Exact(h, slot.occupant, entries) && slot.locked
    {
      slot.Disturb();
      ghost var judged, asides := slot.judged, slot.asides;
      var outcome, attempts := slot.Materialize(u, h, storage, storageKey, digest, m);
      AsidesHeldNext(h, entries, judged, slot.judged, asides, slot.asides, slot.occupant, outcomes, marks,
                     |old(slot.judged)|, outcome);
      outcomes, marks := outcomes + [outcome], marks + [|slot.judged|];
    }
  }
}
