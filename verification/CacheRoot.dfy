/** The symlink walk that makes the cache root private (runtime/cache.py). */
module CacheRoot {
  import opened Prelude

  const MAX_CACHE_SYMLINKS := 40

  /** Where a node physically sits: its names from the filesystem root. */
  type Position = seq<string>

  datatype Target = Target(absolute: bool, parts: seq<string>)

  datatype Node =
    | Directory(owner: nat, sharedWrite: bool, sticky: bool)
    | Link(owner: nat, target: Target)
    | Other(owner: nat)

  type Tree = map<Position, Node>

  function Parent(p: Position): Position { if p == [] then [] else p[..|p| - 1] }

  predicate IsDirectory(tree: Tree, p: Position) { p in tree && tree[p].Directory? }

  /** Every node sits in a directory. */
  ghost predicate Rooted(tree: Tree) {
    IsDirectory(tree, []) && forall p {:trigger Sits(tree, p)} :: p in tree ==> Sits(tree, p)
  }

  ghost predicate Sits(tree: Tree, p: Position) { IsDirectory(tree, Parent(p)) }

  /** Nobody but this user or root could replace the node, or what sits in it. */
  predicate Trusted(uid: nat, n: Node) {
    (n.owner == uid || n.owner == 0) && (n.Directory? && n.sharedWrite ==> n.sticky)
  }

  function Onto(p: Position, component: string): Position { if component == ".." then Parent(p) else p + [component] }

  function Follow(p: Position, t: Target): Position { if t.absolute then [] else Parent(p) }

  /** The walk only ever looks for a node in a directory. */
  lemma {:induction false} StaysInside(tree: Tree, at: Position, component: string, t: Target)
    requires Rooted(tree) && at in tree
    ensures IsDirectory(tree, Parent(Follow(at, t)))
    ensures IsDirectory(tree, at) ==> IsDirectory(tree, Parent(Onto(at, component)))
  {
    assert Sits(tree, at);
    assert Sits(tree, Parent(at));
    assert Sits(tree, []);
    assert Parent(at + [component]) == at;
  }

  // ----- The walk on a tree that stays as it is --------------------------------------------------------

  /** Where a walk ends, if it does, and every node it looks at on the way. */
  datatype Walk = Walk(end: Option<Position>, visited: seq<Position>)

  function After(p: Position, w: Walk): Walk { w.(visited := [p] + w.visited) }

  function Run(tree: Tree, at: Position, pending: seq<string>, links: nat): Walk
    decreases links, |pending|
  {
    if at !in tree then Walk(None, [])
    else match tree[at]
      case Other(_) => Walk(None, [at])
      case Link(_, target) =>
        if links == 0 then Walk(None, [at])
        else After(at, Run(tree, Follow(at, target), target.parts + pending, links - 1))
      case Directory(_, _, _) =>
        if pending == [] then Walk(Some(at), [at])
        else After(at, Run(tree, Onto(at, pending[0]), pending[1..], links))
  }

  /** Recursive path resolution: each link is resolved as a path of its own before the walk goes on. */
  function Resolve(tree: Tree, dir: Position, parts: seq<string>, links: nat): (r: Option<(Position, nat)>)
    ensures r.Some? ==> r.value.1 <= links
    decreases links, |parts|
  {
    if parts == [] then Some((dir, links))
    else if parts[0] == ".." then Resolve(tree, Parent(dir), parts[1..], links)
    else
      var child := dir + [parts[0]];
      if child !in tree then None
      else match tree[child]
        case Other(_) => None
        case Directory(_, _, _) => Resolve(tree, child, parts[1..], links)
        case Link(_, target) =>
          if links == 0 then None
          else
            var reached := Resolve(tree, if target.absolute then [] else dir, target.parts, links - 1);
            if reached.None? then None else Resolve(tree, reached.value.0, parts[1..], reached.value.1)
  }

  /** Resolving a path is resolving its first part, then the rest from there. */
  lemma {:induction false} ResolveInTwo(tree: Tree, dir: Position, a: seq<string>, b: seq<string>, links: nat)
    ensures Resolve(tree, dir, a + b, links)
         == var first := Resolve(tree, dir, a, links);
            if first.None? then None else Resolve(tree, first.value.0, b, first.value.1)
    decreases links, |a|
  {
    if a == [] {
      assert a + b == b;
    } else {
      assert (a + b)[0] == a[0] && (a + b)[1..] == a[1..] + b;
      var child := dir + [a[0]];
      if a[0] == ".." {
        ResolveInTwo(tree, Parent(dir), a[1..], b, links);
      } else if child in tree && tree[child].Directory? {
        ResolveInTwo(tree, child, a[1..], b, links);
      } else if child in tree && tree[child].Link? && links > 0 {
        var target := tree[child].target;
        var reached := Resolve(tree, if target.absolute then [] else dir, target.parts, links - 1);
        if reached.Some? {
          ResolveInTwo(tree, reached.value.0, a[1..], b, reached.value.1);
        }
      }
    }
  }

  /** Every node recursive resolution looks at: the directories it searches, and what it finds in them. */
  function Visits(tree: Tree, dir: Position, parts: seq<string>, links: nat): set<Position>
    decreases links, |parts|
  {
    {dir} +
    if parts == [] then {}
    else if parts[0] == ".." then Visits(tree, Parent(dir), parts[1..], links)
    else
      var child := dir + [parts[0]];
      if child !in tree then {}
      else match tree[child]
        case Other(_) => {child}
        case Directory(_, _, _) => Visits(tree, child, parts[1..], links)
        case Link(_, target) =>
          if links == 0 then {child}
          else
            var start := if target.absolute then [] else dir;
            {child} + Visits(tree, start, target.parts, links - 1)
            + VisitsFrom(tree, Resolve(tree, start, target.parts, links - 1), parts[1..], links)
  }

  /** What is looked at once a first part was resolved, if it was, within a budget it did not exceed. */
  function VisitsFrom(tree: Tree, reached: Option<(Position, nat)>, parts: seq<string>, links: nat): set<Position>
    decreases links, |parts|, 0
  {
    if reached.None? || reached.value.1 >= links then {} else Visits(tree, reached.value.0, parts, reached.value.1)
  }

  /** What resolving a path looks at is what its two parts look at. */
  lemma {:induction false} VisitsInTwo(tree: Tree, dir: Position, a: seq<string>, b: seq<string>, links: nat)
    ensures Visits(tree, dir, a + b, links)
         == Visits(tree, dir, a, links) + VisitsFrom(tree, Resolve(tree, dir, a, links), b, links + 1)
    decreases links, |a|
  {
    if a == [] {
      assert a + b == b;
    } else {
      assert (a + b)[0] == a[0] && (a + b)[1..] == a[1..] + b;
      var child := dir + [a[0]];
      if a[0] == ".." {
        VisitsInTwo(tree, Parent(dir), a[1..], b, links);
      } else if child in tree && tree[child].Directory? {
        VisitsInTwo(tree, child, a[1..], b, links);
      } else if child in tree && tree[child].Link? && links > 0 {
        var target := tree[child].target;
        var reached := Resolve(tree, if target.absolute then [] else dir, target.parts, links - 1);
        if reached.Some? {
          VisitsInTwo(tree, reached.value.0, a[1..], b, reached.value.1);
        }
      }
    }
  }

  function Among(visited: seq<Position>): set<Position> { set p | p in visited }

  lemma {:induction false} AmongAfter(p: Position, w: Walk)
    ensures Among(After(p, w).visited) == {p} + Among(w.visited)
  {
    forall q ensures q in [p] + w.visited <==> q == p || q in w.visited {
    }
  }

  /** Where the walk and recursive resolution end, and what they look at, are the same. */
  ghost predicate SameResolution(tree: Tree, dir: Position, parts: seq<string>, links: nat) {
    var w, r := Run(tree, dir, parts, links), Resolve(tree, dir, parts, links);
    w.end == (if r.None? then None else Some(r.value.0)) && Among(w.visited) == Visits(tree, dir, parts, links)
  }

  lemma {:induction false} SameThroughDirectory(tree: Tree, dir: Position, parts: seq<string>, links: nat)
    requires IsDirectory(tree, dir) && parts != [] && IsDirectory(tree, Onto(dir, parts[0]))
    requires SameResolution(tree, Onto(dir, parts[0]), parts[1..], links)
    ensures SameResolution(tree, dir, parts, links)
  {
    AmongAfter(dir, Run(tree, Onto(dir, parts[0]), parts[1..], links));
  }

  /** The walk past a directory and the link it finds there. */
  lemma {:induction false} RunThroughLink(tree: Tree, dir: Position, parts: seq<string>, links: nat)
    requires IsDirectory(tree, dir) && parts != [] && parts[0] != ".." && links > 0
    requires var child := dir + [parts[0]]; child in tree && tree[child].Link?
    ensures var child := dir + [parts[0]];
      var t := tree[child].target;
      Run(tree, dir, parts, links)
      == After(dir, After(child, Run(tree, if t.absolute then [] else dir, t.parts + parts[1..], links - 1)))
  {
    assert Parent(dir + [parts[0]]) == dir;
  }

  /** Resolution past a link, as the resolution of one joined path. */
  lemma {:induction false} ResolveThroughLink(tree: Tree, dir: Position, parts: seq<string>, links: nat)
    requires parts != [] && parts[0] != ".." && links > 0
    requires var child := dir + [parts[0]]; child in tree && tree[child].Link?
    ensures var child := dir + [parts[0]];
      var t := tree[child].target;
      var start := if t.absolute then [] else dir;
      && Resolve(tree, dir, parts, links) == Resolve(tree, start, t.parts + parts[1..], links - 1)
      && Visits(tree, dir, parts, links) == {dir} + ({child} + Visits(tree, start, t.parts + parts[1..], links - 1))
  {
    var t := tree[dir + [parts[0]]].target;
    var start := if t.absolute then [] else dir;
    ResolveInTwo(tree, start, t.parts, parts[1..], links - 1);
    VisitsInTwo(tree, start, t.parts, parts[1..], links - 1);
  }

  /** A name in a directory that is a link still within the budget, and the walk it stands for. */
  predicate LinkAhead(tree: Tree, dir: Position, parts: seq<string>, links: nat, start: Position, joined: seq<string>) {
    && parts != [] && parts[0] != ".." && links > 0 && dir + [parts[0]] in tree && tree[dir + [parts[0]]].Link?
    && start == (if tree[dir + [parts[0]]].target.absolute then [] else dir)
    && joined == tree[dir + [parts[0]]].target.parts + parts[1..]
  }

  lemma {:induction false} SameThroughLink(tree: Tree, dir: Position, parts: seq<string>, links: nat, start: Position,
                                           joined: seq<string>)
    requires IsDirectory(tree, dir) && LinkAhead(tree, dir, parts, links, start, joined)
    requires SameResolution(tree, start, joined, links - 1)
    ensures SameResolution(tree, dir, parts, links)
  {
    var child := dir + [parts[0]];
    var rest := Run(tree, start, joined, links - 1);
    RunThroughLink(tree, dir, parts, links);
    ResolveThroughLink(tree, dir, parts, links);
    AmongAfter(child, rest);
    AmongAfter(dir, After(child, rest));
  }

  lemma {:induction false} SameWhenStopped(tree: Tree, dir: Position, parts: seq<string>, links: nat)
    requires Rooted(tree) && IsDirectory(tree, dir)
    requires parts != [] ==>
      var child := Onto(dir, parts[0]); child in tree ==> tree[child].Other? || (tree[child].Link? && links == 0)
    ensures SameResolution(tree, dir, parts, links)
  {
    if parts != [] {
      assert Sits(tree, dir);
      AmongAfter(dir, Run(tree, Onto(dir, parts[0]), parts[1..], links));
    }
  }

  lemma {:induction false} WalkResolves(tree: Tree, dir: Position, parts: seq<string>, links: nat)
    requires Rooted(tree) && IsDirectory(tree, dir)
    ensures SameResolution(tree, dir, parts, links)
    decreases links, |parts|
  {
    if parts == [] {
      SameWhenStopped(tree, dir, parts, links);
    } else {
      var child := Onto(dir, parts[0]);
      assert Sits(tree, dir);
      if IsDirectory(tree, child) {
        WalkResolves(tree, child, parts[1..], links);
        SameThroughDirectory(tree, dir, parts, links);
      } else if child in tree && tree[child].Link? && links > 0 {
        var start := if tree[child].target.absolute then [] else dir;
        var joined := tree[child].target.parts + parts[1..];
        WalkResolves(tree, start, joined, links - 1);
        SameThroughLink(tree, dir, parts, links, start, joined);
      } else {
        SameWhenStopped(tree, dir, parts, links);
      }
    }
  }

  /**
   The walk with its stack of pending names ends where recursive resolution does, or fails with it,
   and looks at exactly the nodes resolution looks at.
   */
  lemma {:induction false} WalkIsResolution(tree: Tree, dir: Position, parts: seq<string>, links: nat)
    requires Rooted(tree) && IsDirectory(tree, dir)
    ensures Run(tree, dir, parts, links).end
         == var r := Resolve(tree, dir, parts, links); if r.None? then None else Some(r.value.0)
    ensures Among(Run(tree, dir, parts, links).visited) == Visits(tree, dir, parts, links)
  {
    WalkResolves(tree, dir, parts, links);
  }

  // ----- The walk that creates what is missing -------------------------------------------------------------

  function Reversed(s: seq<string>): (r: seq<string>)
    ensures |r| == |s|
  {
    if s == [] then [] else Reversed(s[1..]) + [s[0]]
  }

  lemma {:induction false} ReversedAppend(a: seq<string>, b: seq<string>)
    ensures Reversed(a + b) == Reversed(b) + Reversed(a)
  {
    if a == [] {
      assert a + b == b;
    } else {
      assert (a + b)[1..] == a[1..] + b;
      ReversedAppend(a[1..], b);
    }
  }

  lemma {:induction false} ReversedTwice(s: seq<string>)
    ensures Reversed(Reversed(s)) == s
  {
    if s != [] {
      ReversedTwice(s[1..]);
      ReversedAppend(Reversed(s[1..]), [s[0]]);
      assert Reversed([s[0]]) == [s[0]];
    }
  }

  lemma {:induction false} PopReversed(pending: seq<string>)
    requires pending != []
    ensures Reversed(pending)[0] == pending[|pending| - 1]
    ensures Reversed(pending)[1..] == Reversed(pending[..|pending| - 1])
  {
    var n := |pending| - 1;
    assert pending == pending[..n] + [pending[n]];
    ReversedAppend(pending[..n], [pending[n]]);
    assert Reversed([pending[n]]) == [pending[n]];
  }

  datatype WalkError = Untrusted(at: Position) | TooManyLinks | NotADirectory(at: Position) | CannotCreate(at: Position)

  /** Only private directories of this user appeared. */
  ghost predicate Grown(before: Tree, after: Tree, uid: nat) {
    && (forall p :: p in before ==> p in after && after[p] == before[p])
    && (forall p :: p in after && p !in before ==> after[p] == Directory(uid, false, false))
  }

  ghost predicate Extends(tree: Tree, more: Tree) { forall p :: p in tree ==> p in more && more[p] == tree[p] }

  ghost predicate AllTrusted(tree: Tree, uid: nat, visited: seq<Position>) {
    forall k :: 0 <= k < |visited| ==> visited[k] in tree && Trusted(uid, tree[visited[k]])
  }

  /** However the tree still grows, the walk from the start is what was visited and then the walk from here. */
  ghost predicate Continues(tree: Tree, parts: seq<string>, visited: seq<Position>, at: Position, pending: seq<string>,
                            links: nat) {
    forall more: Tree :: Extends(tree, more) ==> SameWalk(more, parts, visited, at, pending, links)
  }

  ghost predicate SameWalk(tree: Tree, parts: seq<string>, visited: seq<Position>, at: Position, pending: seq<string>,
                           links: nat) {
    var rest := Run(tree, at, pending, links);
    Run(tree, [], parts, MAX_CACHE_SYMLINKS) == Walk(rest.end, visited + rest.visited)
  }

  lemma {:induction false} ContinuesThroughDirectory(tree: Tree, parts: seq<string>, visited: seq<Position>,
                                                     at: Position, pending: seq<string>, links: nat)
    requires Continues(tree, parts, visited, at, pending, links) && IsDirectory(tree, at) && pending != []
    ensures Continues(tree, parts, visited + [at], Onto(at, pending[0]), pending[1..], links)
  {
    forall more: Tree | Extends(tree, more)
      ensures SameWalk(more, parts, visited + [at], Onto(at, pending[0]), pending[1..], links)
    {
      assert SameWalk(more, parts, visited, at, pending, links);
      var rest := Run(more, Onto(at, pending[0]), pending[1..], links);
      assert visited + ([at] + rest.visited) == visited + [at] + rest.visited;
    }
  }

  lemma {:induction false} ContinuesThroughLink(tree: Tree, parts: seq<string>, visited: seq<Position>, at: Position,
                                                pending: seq<string>, links: nat)
    requires Continues(tree, parts, visited, at, pending, links) && at in tree && tree[at].Link? && links > 0
    ensures Continues(tree, parts, visited + [at], Follow(at, tree[at].target), tree[at].target.parts + pending,
                      links - 1)
  {
    var t := tree[at].target;
    forall more: Tree | Extends(tree, more)
      ensures SameWalk(more, parts, visited + [at], Follow(at, t), t.parts + pending, links - 1)
    {
      assert SameWalk(more, parts, visited, at, pending, links);
      var rest := Run(more, Follow(at, t), t.parts + pending, links - 1);
      assert visited + ([at] + rest.visited) == visited + [at] + rest.visited;
    }
  }

  lemma {:induction false} ContinuesAsItGrows(tree: Tree, more: Tree, parts: seq<string>, visited: seq<Position>,
                                              at: Position, pending: seq<string>, links: nat)
    requires Continues(tree, parts, visited, at, pending, links) && Extends(tree, more)
    ensures Continues(more, parts, visited, at, pending, links)
  {
    forall most: Tree | Extends(more, most) ensures SameWalk(most, parts, visited, at, pending, links) {
      assert Extends(tree, most);
    }
  }

  /** The private root is settled: the walk on this tree ends, and everything it looks at can be trusted. */
  ghost predicate Settled(tree: Tree, uid: nat, parts: seq<string>) {
    var w := Run(tree, [], parts, MAX_CACHE_SYMLINKS);
    w.end.Some? && AllTrusted(tree, uid, w.visited)
  }

  lemma {:induction false} StoppedIsUnsettled(tree: Tree, uid: nat, parts: seq<string>, visited: seq<Position>,
                                              at: Position, pending: seq<string>, links: nat)
    requires Continues(tree, parts, visited, at, pending, links)
    requires || at !in tree || !Trusted(uid, tree[at]) || tree[at].Other? || (tree[at].Link? && links == 0)
    ensures !Settled(tree, uid, parts)
  {
    assert Extends(tree, tree);
    assert SameWalk(tree, parts, visited, at, pending, links);
    var rest := Run(tree, at, pending, links);
    if at in tree {
      assert rest.visited[0] == at;
      assert (visited + rest.visited)[|visited|] == at;
    }
  }

  /** Where the creating walk stands: what it looked at, the next node, and the names still to go, last first. */
  ghost predicate Reached(tree: Tree, uid: nat, parts: seq<string>, visited: seq<Position>, at: Position,
                          pending: seq<string>, links: nat) {
    && Rooted(tree) && IsDirectory(tree, Parent(at)) && AllTrusted(tree, uid, visited)
    && Continues(tree, parts, visited, at, Reversed(pending), links)
  }

  lemma {:induction false} LinkFollowed(tree: Tree, uid: nat, parts: seq<string>, visited: seq<Position>, at: Position,
                                        pending: seq<string>, links: nat)
    requires Reached(tree, uid, parts, visited, at, pending, links) && links > 0
    requires at in tree && tree[at].Link? && Trusted(uid, tree[at])
    ensures var t := tree[at].target;
      Reached(tree, uid, parts, visited + [at], Follow(at, t), pending + Reversed(t.parts), links - 1)
  {
    var t := tree[at].target;
    ContinuesThroughLink(tree, parts, visited, at, Reversed(pending), links);
    ReversedAppend(pending, Reversed(t.parts));
    ReversedTwice(t.parts);
    StaysInside(tree, at, "", t);
  }

  lemma {:induction false} DirectoryEntered(tree: Tree, uid: nat, parts: seq<string>, visited: seq<Position>,
                                            at: Position, pending: seq<string>, links: nat)
    requires Reached(tree, uid, parts, visited, at, pending, links) && pending != []
    requires IsDirectory(tree, at) && Trusted(uid, tree[at])
    ensures var n := |pending| - 1;
      Reached(tree, uid, parts, visited + [at], Onto(at, pending[n]), pending[..n], links)
  {
    PopReversed(pending);
    StaysInside(tree, at, pending[|pending| - 1], Target(true, []));
    ContinuesThroughDirectory(tree, parts, visited, at, Reversed(pending), links);
  }

  lemma {:induction false} DirectoryMade(before: Tree, tree: Tree, uid: nat, parts: seq<string>, visited: seq<Position>,
                                         at: Position, pending: seq<string>, links: nat)
    requires Reached(before, uid, parts, visited, at, pending, links) && at !in before && Rooted(tree)
    requires tree == before[at := Directory(uid, false, false)]
    ensures Reached(tree, uid, parts, visited, at, pending, links)
  {
    ContinuesAsItGrows(before, tree, parts, visited, at, Reversed(pending), links);
  }

  /** The walk is over at a trusted directory: resolving the root again passes trusted nodes alone. */
  lemma {:induction false} RootReached(tree: Tree, uid: nat, parts: seq<string>, visited: seq<Position>, at: Position,
                                       links: nat)
    requires Reached(tree, uid, parts, visited, at, [], links) && IsDirectory(tree, at) && Trusted(uid, tree[at])
    ensures Settled(tree, uid, parts) && PrivateRoot(tree, uid, parts, at)
    ensures Run(tree, [], parts, MAX_CACHE_SYMLINKS).end == Some(at)
  {
    EndsHere(tree, uid, parts, visited, at, links);
    WalkIsResolution(tree, [], parts, MAX_CACHE_SYMLINKS);
    forall p | p in Visits(tree, [], parts, MAX_CACHE_SYMLINKS) ensures p in tree && Trusted(uid, tree[p]) {
      assert p in Among(Run(tree, [], parts, MAX_CACHE_SYMLINKS).visited);
    }
  }

  /** Recursive resolution ends at a position, and every node it looks at on the way can be trusted. */
  ghost predicate PrivateRoot(tree: Tree, uid: nat, parts: seq<string>, at: Position) {
    && Resolve(tree, [], parts, MAX_CACHE_SYMLINKS).Some?
    && Resolve(tree, [], parts, MAX_CACHE_SYMLINKS).value.0 == at
    && forall p :: p in Visits(tree, [], parts, MAX_CACHE_SYMLINKS) ==> p in tree && Trusted(uid, tree[p])
  }

  class Disk {
    var nodes: Tree
    /** The directories nothing can be created in. */
    const refused: set<Position>

    constructor (nodes: Tree, refused: set<Position>)
      ensures this.nodes == nodes && this.refused == refused
    {
      this.nodes, this.refused := nodes, refused;
    }

    method MakeDirectory(at: Position, uid: nat) returns (made: bool)
      requires Rooted(nodes) && at !in nodes && IsDirectory(nodes, Parent(at))
      modifies this
      ensures made <==> Parent(at) !in refused
      ensures nodes == if made then old(nodes)[at := Directory(uid, false, false)] else old(nodes)
      ensures Rooted(nodes)
    {
      made := Parent(at) !in refused;
      if made {
        nodes := nodes[at := Directory(uid, false, false)];
        forall p | p in nodes ensures Sits(nodes, p) {
          assert p == at || Sits(old(nodes), p);
        }
      }
    }
  }

  /**
   _ensure_private_root. It ends on every tree, links in a circle included; it succeeds exactly
   when the walk on the tree it leaves ends with every visited node trusted, and then at the
   directory recursive resolution gives, past trusted nodes alone; and it adds nothing but private
   directories.
   */
  method EnsurePrivateRoot(disk: Disk, uid: nat, parts: seq<string>) returns (r: Result<Position, WalkError>)
    requires Rooted(disk.nodes)
    modifies disk
    ensures Grown(old(disk.nodes), disk.nodes, uid) && Rooted(disk.nodes)
    ensures r.Ok? <==> Settled(disk.nodes, uid, parts)
    ensures r.Ok? ==> Run(disk.nodes, [], parts, MAX_CACHE_SYMLINKS).end == Some(r.value)
    ensures r.Ok? ==> PrivateRoot(disk.nodes, uid, parts, r.value)
  {
    var pending := Reversed(parts);
    var directory: Position := [];
    var symlinks := 0;
    ghost var visited: seq<Position> := [];
    ReversedTwice(parts);
    while true
      invariant Grown(old(disk.nodes), disk.nodes, uid) && 0 <= symlinks <= MAX_CACHE_SYMLINKS
      invariant Reached(disk.nodes, uid, parts, visited, directory, pending, MAX_CACHE_SYMLINKS - symlinks)
      decreases MAX_CACHE_SYMLINKS - symlinks, |pending|
    {
      ghost var links := MAX_CACHE_SYMLINKS - symlinks;
      if directory !in disk.nodes {
        ghost var before := disk.nodes;
        var made := disk.MakeDirectory(directory, uid);
        if !made {
          StoppedIsUnsettled(disk.nodes, uid, parts, visited, directory, Reversed(pending), links);
          return Err(CannotCreate(directory));
        }
        DirectoryMade(before, disk.nodes, uid, parts, visited, directory, pending, links);
      }
      var info := disk.nodes[directory];
      if info.owner != uid && info.owner != 0 {
        StoppedIsUnsettled(disk.nodes, uid, parts, visited, directory, Reversed(pending), links);
        return Err(Untrusted(directory));
      }
      if info.Link? {
        symlinks := symlinks + 1;
        if symlinks > MAX_CACHE_SYMLINKS {
          StoppedIsUnsettled(disk.nodes, uid, parts, visited, directory, Reversed(pending), links);
          return Err(TooManyLinks);
        }
        LinkFollowed(disk.nodes, uid, parts, visited, directory, pending, links);
        visited := visited + [directory];
        directory := Follow(directory, info.target);
        pending := pending + Reversed(info.target.parts);
        continue;
      }
      if !info.Directory? {
        StoppedIsUnsettled(disk.nodes, uid, parts, visited, directory, Reversed(pending), links);
        return Err(NotADirectory(directory));
      }
      if info.sharedWrite && !info.sticky {
        StoppedIsUnsettled(disk.nodes, uid, parts, visited, directory, Reversed(pending), links);
        return Err(Untrusted(directory));
      }
      if pending == [] {
        RootReached(disk.nodes, uid, parts, visited, directory, links);
        return Ok(directory);
      }
      DirectoryEntered(disk.nodes, uid, parts, visited, directory, pending, links);
      visited := visited + [directory];
      directory := Onto(directory, pending[|pending| - 1]);
      pending := pending[..|pending| - 1];
    }
  }

  lemma {:induction false} EndsHere(tree: Tree, uid: nat, parts: seq<string>, visited: seq<Position>, at: Position,
                                    links: nat)
    requires Continues(tree, parts, visited, at, [], links) && AllTrusted(tree, uid, visited)
    requires IsDirectory(tree, at) && Trusted(uid, tree[at])
    ensures Settled(tree, uid, parts) && Run(tree, [], parts, MAX_CACHE_SYMLINKS).end == Some(at)
  {
    assert Extends(tree, tree);
    assert SameWalk(tree, parts, visited, at, [], links);
  }
}
