/**
 Proposing the Projects a set of built-in modules migrates into (netbox_scripts/migration/plan.py),
 with the path rules it shares with the models (validators.py, utils.py).
 */
module MigrationPlan {
  import opened Prelude
  import opened Segments

  /** One built-in module: its key, and its path on the data source it is synchronized from, if any. */
  datatype Module = Module(pk: nat, source: Option<nat>, dataPath: string)

  /** What a module groups on: itself when uploaded, otherwise a folder of its data source. */
  datatype Identity = Upload(pk: nat) | Folder(source: nat, folder: string)

  // ----- Paths -------------------------------------------------------------------------------------

  /** The segments of a data path. The empty path is the root of the data source. */
  function Segs(path: string): seq<string> { if path == "" then [] else Split(path) }

  /** data_paths_overlap. */
  predicate Overlap(a: string, b: string) {
    a == b
    || var (shorter, longer) := if |Segs(a)| <= |Segs(b)| then (Segs(a), Segs(b)) else (Segs(b), Segs(a));
       longer[..|shorter|] == shorter
  }

  /** data_source_relative_path. */
  function RelativePath(path: string, dataPath: string): Option<string> {
    var prefix := Segs(dataPath);
    var segments := Split(path);
    if !(prefix <= segments) || |segments| == |prefix| then None else Some(Join(segments[|prefix|..]))
  }

  /** path.rfind('/') + 1. */
  function AfterLastSlash(path: string): (n: nat)
    ensures n <= |path| && (n > 0 ==> path[n - 1] == '/') && '/' !in path[n..]
  {
    if path == "" then 0
    else if path[|path| - 1] == '/' then |path|
    else AfterLastSlash(path[..|path| - 1])
  }

  function StripSlashes(path: string): string {
    if path != "" && path[|path| - 1] == '/' then StripSlashes(path[..|path| - 1]) else path
  }

  /** posixpath.dirname. */
  function Dirname(path: string): string {
    var head := path[..AfterLastSlash(path)];
    if forall c :: c in head ==> c == '/' then head else StripSlashes(head)
  }

  /** A relative file path with no empty segment. */
  ghost predicate Canonical(path: string) {
    forall k :: 0 <= k < |Split(path)| ==> Split(path)[k] != ""
  }

  lemma {:induction false} SegsInjective(a: string, b: string)
    requires Segs(a) == Segs(b)
    ensures a == b
  {
    JoinSplit(a);
    JoinSplit(b);
  }

  /** Overlap is containment of one folder in the other, by whole segments. */
  lemma {:induction false} OverlapIsContainment(a: string, b: string)
    ensures Overlap(a, b) <==> Segs(a) <= Segs(b) || Segs(b) <= Segs(a)
    ensures Overlap(a, b) == Overlap(b, a)
  {
    if |Segs(a)| == |Segs(b)| && (Segs(a) <= Segs(b) || Segs(b) <= Segs(a)) {
      assert Segs(a) == Segs(b);
      SegsInjective(a, b);
    }
    assert Segs(b)[..|Segs(b)|] == Segs(b);
  }

  /** The segments of a text with one more character in front. */
  function Prepended(c: char, parts: seq<string>): seq<string>
    requires parts != []
  {
    if c == '/' then [""] + parts else [[c] + parts[0]] + parts[1..]
  }

  lemma {:induction false} SplitHead(s: string)
    requires s != ""
    ensures Split(s) == Prepended(s[0], Split(s[1..]))
  {
  }

  lemma {:induction false} PrependedAppend(c: char, a: seq<string>, b: seq<string>)
    requires a != []
    ensures Prepended(c, a + b) == Prepended(c, a) + b
  {
    assert (a + b)[0] == a[0] && (a + b)[1..] == a[1..] + b;
  }

  lemma {:induction false} SplitAtSlash(a: string, b: string)
    ensures Split(a + "/" + b) == Split(a) + Split(b)
  {
    var s := a + "/" + b;
    SplitHead(s);
    if a == "" {
      assert s[0] == '/' && s[1..] == b;
    } else {
      assert s[0] == a[0] && s[1..] == a[1..] + "/" + b;
      SplitAtSlash(a[1..], b);
      SplitHead(a);
      PrependedAppend(a[0], Split(a[1..]), Split(b));
    }
  }

  lemma {:induction false} NotStripped(head: string)
    requires head != "" && head[|head| - 1] != '/'
    ensures StripSlashes(head + "/") == head
  {
    assert (head + "/")[..|head|] == head;
  }

  lemma {:induction false} SplitEndsWithSlash(path: string)
    requires path != "" && path[|path| - 1] == '/'
    ensures Split(path)[|Split(path)| - 1] == ""
  {
    assert path == path[..|path| - 1] + "/" + "";
    SplitAtSlash(path[..|path| - 1], "");
  }

  lemma {:induction false} LastSlash(head: string, name: string)
    requires '/' !in name
    ensures AfterLastSlash(head + "/" + name) == |head| + 1
  {
    var path := head + "/" + name;
    var n := AfterLastSlash(path);
    assert path[|head|] == '/';
    forall k | n <= k < |path| ensures path[k] != '/' {
      assert path[n..][k - n] == path[k];
    }
    forall k | |head| < k < |path| ensures path[k] != '/' {
      assert path[k] == name[k - |head| - 1];
    }
  }

  lemma {:induction false} DirnameIsHead(head: string, name: string)
    requires '/' !in name && head != "" && head[|head| - 1] != '/'
    ensures Dirname(head + "/" + name) == head
  {
    LastSlash(head, name);
    var directory := head + "/";
    assert (head + "/" + name)[..|head| + 1] == directory;
    assert directory[|head| - 1] == head[|head| - 1] && directory[|head| - 1] in directory;
    NotStripped(head);
  }

  lemma {:induction false} CanonicalHead(head: string, name: string)
    requires Canonical(head + "/" + name)
    ensures head != "" && head[|head| - 1] != '/'
    ensures Split(head + "/" + name) == Split(head) + Split(name)
  {
    SplitAtSlash(head, name);
    var last := |Split(head)| - 1;
    assert Split(head + "/" + name)[last] == Split(head)[last];
    if head != "" && head[|head| - 1] == '/' {
      SplitEndsWithSlash(head);
    }
  }

  /** A canonical file sits directly in its dirname. */
  lemma {:induction false} DirnameSegments(path: string)
    requires Canonical(path)
    ensures Segs(Dirname(path)) == Split(path)[..|Split(path)| - 1]
  {
    var n := AfterLastSlash(path);
    var name := path[n..];
    SplitPlain(name);
    if n == 0 {
      assert path == name;
    } else {
      var head := path[..n - 1];
      assert path == head + "/" + name;
      CanonicalHead(head, name);
      DirnameIsHead(head, name);
    }
  }

  lemma {:induction false} Remainder(whole: seq<string>, prefix: seq<string>)
    requires whole != [] && prefix <= whole[..|whole| - 1]
    ensures prefix <= whole && |prefix| < |whole| && prefix + whole[|prefix|..] == whole
  {
    assert whole[..|prefix|] == whole[..|whole| - 1][..|prefix|];
  }

  /** The segments left after a folder's, joined. */
  lemma {:induction false} RemainderJoined(path: string, n: nat)
    requires Canonical(path) && n < |Split(path)|
    ensures Join(Split(path)[n..]) != "" && Split(Join(Split(path)[n..])) == Split(path)[n..]
  {
    var rest := Split(path)[n..];
    JoinSplit(path);
    SplitJoin(rest);
    assert rest[0] == Split(path)[n];
  }

  /** A file in a folder, however deep, has a path relative to it that leads back to the file. */
  lemma {:induction false} ContainedHasRelativePath(path: string, folder: string)
    requires Canonical(path) && Segs(folder) <= Segs(Dirname(path))
    ensures RelativePath(path, folder).Some? && RelativePath(path, folder).value != ""
    ensures Segs(folder) + Split(RelativePath(path, folder).value) == Split(path)
  {
    DirnameSegments(path);
    Remainder(Split(path), Segs(folder));
    RemainderJoined(path, |Segs(folder)|);
  }

  /** A path has a relative one exactly when it is the folder, a '/', and that; everything is relative to the root. */
  lemma {:induction false} RelativePathExactly(path: string, folder: string, rest: string)
    ensures folder == "" ==> RelativePath(path, folder) == Some(path)
    ensures folder != "" ==> (RelativePath(path, folder) == Some(rest) <==> path == folder + "/" + rest)
  {
    JoinSplit(path);
    if folder == "" {
      assert Split(path)[0..] == Split(path);
    } else {
      SplitAtSlash(folder, rest);
      if path == folder + "/" + rest {
        assert (Split(folder) + Split(rest))[|Split(folder)|..] == Split(rest);
        JoinSplit(rest);
      }
      if RelativePath(path, folder) == Some(rest) {
        RelativeLeadsBack(path, folder, rest);
      }
    }
  }

  lemma {:induction false} RelativeLeadsBack(path: string, folder: string, rest: string)
    requires folder != "" && RelativePath(path, folder) == Some(rest)
    ensures path == folder + "/" + rest
  {
    var n := |Split(folder)|;
    RelativeIsTail(path, folder, rest);
    TailSplits(path, n);
    SplitAtSlash(folder, rest);
    SplitInjective(path, folder + "/" + rest);
  }

  lemma {:induction false} RelativeIsTail(path: string, folder: string, rest: string)
    requires folder != "" && RelativePath(path, folder) == Some(rest)
    ensures |Split(folder)| < |Split(path)| && rest == Join(Split(path)[|Split(folder)|..])
    ensures Split(path) == Split(folder) + Split(path)[|Split(folder)|..]
  {
  }

  lemma {:induction false} TailSplits(path: string, n: nat)
    requires n < |Split(path)|
    ensures Split(Join(Split(path)[n..])) == Split(path)[n..]
  {
    JoinSplit(path);
    SplitJoin(Split(path)[n..]);
  }

  lemma {:induction false} SplitInjective(a: string, b: string)
    requires Split(a) == Split(b)
    ensures a == b
  {
    JoinSplit(a);
    JoinSplit(b);
  }

  /**
   posixpath.dirname on any path: nothing before the last '/' leaves the empty text, slashes alone are
   kept with it, and otherwise it goes with every '/' before it.
   */
  lemma {:induction false} DirnameExactly(head: string, name: string)
    requires '/' !in name
    ensures Dirname(name) == ""
    ensures var r := Dirname(head + "/" + name);
      if forall c :: c in head ==> c == '/' then r == head + "/"
      else r != "" && r <= head && r[|r| - 1] != '/' && forall k :: |r| <= k < |head| ==> head[k] == '/'
  {
    assert AfterLastSlash(name) == 0;
    assert name[..0] == "" && forall c :: c in name[..0] ==> c == '/';
    LastSlash(head, name);
    assert (head + "/" + name)[..|head| + 1] == head + "/";
    if forall c :: c in head ==> c == '/' {
      assert forall c :: c in head + "/" ==> c in head || c == '/';
    } else {
      var c :| c in head && c != '/';
      assert c in head + "/";
      StrippedOfSlash(head);
    }
  }

  lemma {:induction false} StrippedOfSlash(head: string)
    requires exists c :: c in head && c != '/'
    ensures var r := StripSlashes(head + "/");
      r != "" && r <= head && r[|r| - 1] != '/' && forall k :: |r| <= k < |head| ==> head[k] == '/'
  {
    var directory := head + "/";
    var c :| c in head && c != '/';
    assert c in directory && directory[|head|] == '/';
    StrippedExactly(directory);
    var r := StripSlashes(directory);
    assert r[|r| - 1] == directory[|r| - 1];
    assert r == directory[..|r|] == head[..|r|];
    assert forall k :: |r| <= k < |head| ==> directory[k] == head[k];
  }

  lemma {:induction false} StrippedExactly(text: string)
    ensures var r := StripSlashes(text);
      && r <= text && (r != "" ==> r[|r| - 1] != '/') && (forall k :: |r| <= k < |text| ==> text[k] == '/')
      && ((exists c :: c in text && c != '/') ==> r != "")
  {
    if text != "" && text[|text| - 1] == '/' {
      var shorter := text[..|text| - 1];
      StrippedExactly(shorter);
      assert forall c :: c in text ==> c in shorter || c == '/';
      assert forall k :: 0 <= k < |shorter| ==> shorter[k] == text[k];
    }
  }

  // ----- The shallowest folder ---------------------------------------------------------------------

  /** best is the shallowest of some folders that contains a folder. */
  ghost predicate Shallowest(folders: set<string>, folder: string, best: string) {
    && best in folders && Segs(best) <= Segs(folder)
    && (forall f :: f in folders && Segs(f) <= Segs(folder) ==> Segs(best) <= Segs(f))
  }

  lemma {:induction false} ShallowestIsUnique(folders: set<string>, folder: string, a: string, b: string)
    requires Shallowest(folders, folder, a) && Shallowest(folders, folder, b)
    ensures a == b
  {
    SegsInjective(a, b);
  }

  function Among(folders: seq<string>): set<string> { set f | f in folders }

  ghost predicate ShallowestDepth(seen: set<string>, folder: string, best: string) {
    && (best in seen || best == folder) && Segs(best) <= Segs(folder)
    && (forall f :: f in seen && Segs(f) <= Segs(folder) ==> |Segs(best)| <= |Segs(f)|)
  }

  lemma {:induction false} DepthNext(folders: seq<string>, i: nat, folder: string, best: string)
    requires i < |folders| && ShallowestDepth(Among(folders[..i]), folder, best)
    ensures ShallowestDepth(Among(folders[..i + 1]), folder,
              if |Segs(folders[i])| < |Segs(best)| && Overlap(folders[i], folder) then folders[i] else best)
  {
    OverlapIsContainment(folders[i], folder);
    assert folders[..i + 1] == folders[..i] + [folders[i]];
    assert Among(folders[..i + 1]) == Among(folders[..i]) + {folders[i]};
  }

  lemma {:induction false} LeastDepthIsShallowest(folders: set<string>, folder: string, best: string)
    requires ShallowestDepth(folders, folder, best) && folder in folders
    ensures Shallowest(folders, folder, best)
  {
  }

  /** _container. */
  method Container(folder: string, folders: seq<string>) returns (best: string)
    requires folder in folders
    ensures Shallowest(Among(folders), folder, best)
  {
    best := folder;
    var bestDepth := |Segs(folder)|;
    for i := 0 to |folders|
      invariant bestDepth == |Segs(best)| && ShallowestDepth(Among(folders[..i]), folder, best)
    {
      var candidate := folders[i];
      var depth := |Segs(candidate)|;
      DepthNext(folders, i, folder, best);
      if depth < bestDepth && Overlap(candidate, folder) {
        best, bestDepth := candidate, depth;
      }
    }
    assert folders[..|folders|] == folders;
    LeastDepthIsShallowest(Among(folders), folder, best);
  }

  // ----- Grouping -------------------------------------------------------------------------------------

  /** _identity. */
  function IdentityOf(m: Module): Identity {
    if m.source.None? then Upload(m.pk) else Folder(m.source.value, Dirname(m.dataPath))
  }

  /** The original folders of one data source. */
  function FoldersOn(modules: set<Module>, source: nat): set<string> {
    set m | m in modules && m.source == Some(source) :: Dirname(m.dataPath)
  }

  function AsSet(modules: seq<Module>): set<Module> { set m | m in modules }

  /** Where an identity merges to. */
  ghost predicate MergesInto(modules: set<Module>, id: Identity, home: Identity) {
    match id
    case Upload(_) => home == id
    case Folder(source, folder) =>
      home.Folder? && home.source == source && Shallowest(FoldersOn(modules, source), folder, home.folder)
  }

  /** The proposal a module belongs to. */
  ghost predicate IsHome(modules: set<Module>, m: Module, home: Identity) {
    MergesInto(modules, IdentityOf(m), home)
  }

  type Groups = map<Identity, seq<Module>>

  function MembersOf(groups: Groups, id: Identity): seq<Module> { if id in groups then groups[id] else [] }

  /** Each proposal holds exactly the modules whose home it is, as often as they occur, and none is empty. */
  ghost predicate Grouped(modules: seq<Module>, groups: Groups) {
    && (forall id :: id in groups ==> groups[id] != [])
    && (forall id, m :: id in groups && m in groups[id] ==> m in modules && IsHome(AsSet(modules), m, id)
                                                            && multiset(groups[id])[m] == multiset(modules)[m])
    && (forall m :: m in modules ==> exists id :: id in groups && m in groups[id])
  }

  /** The buckets by order of appearance. */
  ghost predicate Listed(buckets: Groups, order: seq<Identity>) {
    && (forall id :: id in order <==> id in buckets)
    && (forall i, k :: 0 <= i < k < |order| ==> order[i] != order[k])
    && (forall id :: id in buckets ==> buckets[id] != [])
  }

  /** A module among those of an identity carries it, and is there as often as it occurs. */
  ghost predicate Carries(modules: seq<Module>, id: Identity, members: seq<Module>, m: Module) {
    m in members ==> m in modules && IdentityOf(m) == id && multiset(members)[m] == multiset(modules)[m]
  }

  /** The first buckets: each identity with the modules that carry it. */
  ghost predicate Bucketed(modules: seq<Module>, buckets: Groups, order: seq<Identity>) {
    && Listed(buckets, order)
    && (forall id, m :: id in buckets ==> Carries(modules, id, buckets[id], m))
    && (forall m :: m in modules ==> m in MembersOf(buckets, IdentityOf(m)))
  }

  lemma {:induction false} ListNext(buckets: Groups, order: seq<Identity>, id: Identity, members: seq<Module>)
    requires Listed(buckets, order) && members != []
    ensures Listed(buckets[id := members], if id in buckets then order else order + [id])
  {
  }

  lemma {:induction false} CarriesNext(modules: seq<Module>, id: Identity, members: seq<Module>, m: Module, k: Module)
    requires Carries(modules, id, members, k) && (IdentityOf(k) == id && k in modules ==> k in members)
    ensures IdentityOf(m) == id ==> Carries(modules + [m], id, members + [m], k)
    ensures IdentityOf(m) != id ==> Carries(modules + [m], id, members, k)
  {
    CountTogether(modules, [m], k);
    CountTogether(members, [m], k);
  }

  lemma {:induction false} BucketNext(modules: seq<Module>, i: nat, buckets: Groups, order: seq<Identity>)
    requires i < |modules| && Bucketed(modules[..i], buckets, order)
    ensures var id := IdentityOf(modules[i]);
      Bucketed(modules[..i + 1], buckets[id := MembersOf(buckets, id) + [modules[i]]],
               if id in buckets then order else order + [id])
  {
    var m := modules[i];
    var id := IdentityOf(m);
    var after := buckets[id := MembersOf(buckets, id) + [m]];
    assert modules[..i + 1] == modules[..i] + [m];
    ListNext(buckets, order, id, MembersOf(buckets, id) + [m]);
    forall other, k | other in after ensures Carries(modules[..i] + [m], other, after[other], k) {
      CarriesNext(modules[..i], other, MembersOf(buckets, other), m, k);
    }
  }

  method Bucket(modules: seq<Module>) returns (buckets: Groups, order: seq<Identity>)
    ensures Bucketed(modules, buckets, order)
  {
    buckets, order := map[], [];
    for i := 0 to |modules|
      invariant Bucketed(modules[..i], buckets, order)
    {
      BucketNext(modules, i, buckets, order);
      var id := IdentityOf(modules[i]);
      if id !in buckets {
        order := order + [id];
      }
      buckets := buckets[id := MembersOf(buckets, id) + [modules[i]]];
    }
    assert modules[..|modules|] == modules;
  }

  function FoldersAt(folders: map<nat, seq<string>>, source: nat): seq<string> {
    if source in folders then folders[source] else []
  }

  /** The folders of each data source among some identities. */
  method FoldersBySource(order: seq<Identity>) returns (folders: map<nat, seq<string>>)
    ensures forall s, f :: f in FoldersAt(folders, s) <==> Folder(s, f) in order
  {
    folders := map[];
    for i := 0 to |order|
      invariant forall s, f :: f in FoldersAt(folders, s) <==> Folder(s, f) in order[..i]
    {
      assert order[..i + 1] == order[..i] + [order[i]];
      if order[i].Folder? {
        var source := order[i].source;
        folders := folders[source := FoldersAt(folders, source) + [order[i].folder]];
      }
    }
    assert order[..|order|] == order;
  }

  lemma {:induction false} FoldersAgree(modules: seq<Module>, buckets: Groups, order: seq<Identity>, source: nat,
                                        folders: seq<string>)
    requires Bucketed(modules, buckets, order) && forall f :: f in folders <==> Folder(source, f) in order
    ensures Among(folders) == FoldersOn(AsSet(modules), source)
  {
    forall f | f in folders ensures f in FoldersOn(AsSet(modules), source) {
      var id := Folder(source, f);
      var m := buckets[id][0];
      assert Carries(modules, id, buckets[id], m);
      assert m in AsSet(modules) && IdentityOf(m) == id;
    }
    forall f | f in FoldersOn(AsSet(modules), source) ensures f in folders {
      var m :| m in AsSet(modules) && m.source == Some(source) && Dirname(m.dataPath) == f;
      assert IdentityOf(m) == Folder(source, f);
    }
  }

  /** The modules of the identities merged so far are there. */
  ghost predicate Covered(modules: seq<Module>, done: seq<Identity>, merged: Groups) {
    forall m :: m in modules && IdentityOf(m) in done ==> exists id :: id in merged && m in merged[id]
  }

  /** Only they are there. */
  ghost predicate AllOk(modules: seq<Module>, done: seq<Identity>, merged: Groups) {
    forall id, m :: id in merged && m in merged[id] ==> MemberOk(modules, done, merged, id, m)
  }

  ghost predicate NoneEmpty(groups: Groups) { forall id :: id in groups ==> groups[id] != [] }

  /** The identities merged so far. */
  ghost predicate Merged(modules: seq<Module>, done: seq<Identity>, merged: Groups) {
    NoneEmpty(merged) && AllOk(modules, done, merged) && Covered(modules, done, merged)
  }

  lemma {:induction false} MergeNext(modules: seq<Module>, done: seq<Identity>, merged: Groups, home: Identity,
                                     bucket: seq<Module>, next: Identity)
    requires Merged(modules, done, merged) && next !in done && bucket != []
    requires MergesInto(AsSet(modules), next, home)
    requires forall m :: Carries(modules, next, bucket, m)
    requires forall m :: m in modules && IdentityOf(m) == next ==> m in bucket
    ensures Merged(modules, done + [next], merged[home := MembersOf(merged, home) + bucket])
  {
    MergeCovers(modules, done, merged, home, bucket, next);
    MergeMembers(modules, done, merged, home, bucket, next);
  }

  lemma {:induction false} MergeMembers(modules: seq<Module>, done: seq<Identity>, merged: Groups, home: Identity,
                                        bucket: seq<Module>, next: Identity)
    requires AllOk(modules, done, merged) && next !in done && MergesInto(AsSet(modules), next, home)
    requires forall m :: Carries(modules, next, bucket, m)
    ensures AllOk(modules, done + [next], merged[home := MembersOf(merged, home) + bucket])
  {
    var after := merged[home := MembersOf(merged, home) + bucket];
    forall id, m | id in after && m in after[id] ensures MemberOk(modules, done + [next], after, id, m) {
      MergeMember(modules, done, merged, home, bucket, next, id, m);
    }
  }

  ghost predicate MemberOk(modules: seq<Module>, done: seq<Identity>, merged: Groups, id: Identity, m: Module)
    requires id in merged
  {
    && IdentityOf(m) in done && m in modules && IsHome(AsSet(modules), m, id)
    && multiset(merged[id])[m] == multiset(modules)[m]
  }

  lemma {:induction false} MergeMember(modules: seq<Module>, done: seq<Identity>, merged: Groups, home: Identity,
                                       bucket: seq<Module>, next: Identity, id: Identity, m: Module)
    requires id in merged && m in merged[id] ==> MemberOk(modules, done, merged, id, m)
    requires Carries(modules, next, bucket, m) && MergesInto(AsSet(modules), next, home) && next !in done
    requires var after := merged[home := MembersOf(merged, home) + bucket]; id in after && m in after[id]
    ensures MemberOk(modules, done + [next], merged[home := MembersOf(merged, home) + bucket], id, m)
  {
    if id == home {
      MembersAddUp(modules, done, merged, home, bucket, next, m);
    } else {
      MemberStays(modules, done, merged, id, m, next, home, MembersOf(merged, home) + bucket);
    }
  }

  lemma {:induction false} MemberStays(modules: seq<Module>, done: seq<Identity>, merged: Groups, id: Identity,
                                       m: Module, next: Identity, home: Identity, members: seq<Module>)
    requires id in merged && id != home && MemberOk(modules, done, merged, id, m)
    ensures MemberOk(modules, done + [next], merged[home := members], id, m)
  {
  }

  lemma {:induction false} MergeCovers(modules: seq<Module>, done: seq<Identity>, merged: Groups, home: Identity,
                                       bucket: seq<Module>, next: Identity)
    requires Covered(modules, done, merged)
    requires forall m :: m in modules && IdentityOf(m) == next ==> m in bucket
    ensures Covered(modules, done + [next], merged[home := MembersOf(merged, home) + bucket])
  {
    var after := merged[home := MembersOf(merged, home) + bucket];
    forall m | m in modules && IdentityOf(m) in done + [next] ensures exists h :: h in after && m in after[h] {
      if IdentityOf(m) == next {
        assert m in after[home];
      } else {
        var h :| h in merged && m in merged[h];
        assert m in after[h];
      }
    }
  }

  lemma {:induction false} MembersAddUp(modules: seq<Module>, done: seq<Identity>, merged: Groups, home: Identity,
                                        bucket: seq<Module>, next: Identity, m: Module)
    requires home in merged && m in merged[home] ==> MemberOk(modules, done, merged, home, m)
    requires Carries(modules, next, bucket, m)
    requires MergesInto(AsSet(modules), next, home) && next !in done && m in MembersOf(merged, home) + bucket
    ensures MemberOk(modules, done + [next], merged[home := MembersOf(merged, home) + bucket], home, m)
  {
    CountTogether(MembersOf(merged, home), bucket, m);
  }

  lemma {:induction false} CountTogether(a: seq<Module>, b: seq<Module>, m: Module)
    ensures multiset(a + b)[m] == multiset(a)[m] + multiset(b)[m]
    ensures m !in a ==> multiset(a)[m] == 0
    ensures m !in b ==> multiset(b)[m] == 0
  {
    assert multiset(a + b) == multiset(a) + multiset(b);
  }

  /** _collapse. */
  method Collapse(ghost modules: seq<Module>, buckets: Groups, order: seq<Identity>) returns (merged: Groups)
    requires Bucketed(modules, buckets, order)
    ensures Grouped(modules, merged)
  {
    var folders := FoldersBySource(order);
    merged := map[];
    for i := 0 to |order|
      invariant Merged(modules, order[..i], merged)
    {
      var home := order[i];
      if home.Folder? {
        FoldersAgree(modules, buckets, order, home.source, FoldersAt(folders, home.source));
        var container := Container(home.folder, FoldersAt(folders, home.source));
        home := Folder(home.source, container);
      }
      assert order[..i + 1] == order[..i] + [order[i]];
      MergeNext(modules, order[..i], merged, home, buckets[order[i]], order[i]);
      merged := merged[home := MembersOf(merged, home) + buckets[order[i]]];
    }
    assert order[..|order|] == order;
    AllMerged(modules, buckets, order, merged);
  }

  lemma {:induction false} AllMerged(modules: seq<Module>, buckets: Groups, order: seq<Identity>, merged: Groups)
    requires Bucketed(modules, buckets, order) && Merged(modules, order, merged)
    ensures Grouped(modules, merged)
  {
  }

  /** group, before its result is sorted by key. */
  method Group(modules: seq<Module>) returns (groups: Groups)
    ensures Grouped(modules, groups)
  {
    var buckets, order := Bucket(modules);
    groups := Collapse(modules, buckets, order);
  }

  // ----- What grouping means ----------------------------------------------------------------------------

  /** Every module has one home. */
  lemma {:induction false} HomeIsUnique(modules: set<Module>, m: Module, a: Identity, b: Identity)
    requires IsHome(modules, m, a) && IsHome(modules, m, b)
    ensures a == b
  {
    if m.source.Some? {
      ShallowestIsUnique(FoldersOn(modules, m.source.value), Dirname(m.dataPath), a.folder, b.folder);
    }
  }

  /** The proposals partition the modules: each is in one of them, and in no other. */
  lemma {:induction false} GroupsPartition(modules: seq<Module>, groups: Groups, m: Module)
    requires Grouped(modules, groups) && m in modules
    ensures exists id :: id in groups && m in groups[id]
    ensures forall a, b :: a in groups && b in groups && m in groups[a] && m in groups[b] ==> a == b
  {
    forall a, b | a in groups && b in groups && m in groups[a] && m in groups[b] ensures a == b {
      HomeIsUnique(AsSet(modules), m, a, b);
    }
  }

  /** Proposed folders of one data source never overlap. */
  lemma {:induction false} ProposedFoldersNeverOverlap(modules: seq<Module>, groups: Groups, a: Identity, b: Identity)
    requires Grouped(modules, groups) && a in groups && b in groups && a != b
    requires a.Folder? && b.Folder? && a.source == b.source
    ensures !Overlap(a.folder, b.folder)
  {
    OverlapIsContainment(a.folder, b.folder);
    if Segs(a.folder) <= Segs(b.folder) {
      NeverInside(modules, groups, a, b);
    }
    if Segs(b.folder) <= Segs(a.folder) {
      NeverInside(modules, groups, b, a);
    }
  }

  lemma {:induction false} ProposedFolder(modules: seq<Module>, groups: Groups, id: Identity) returns (m: Module)
    requires Grouped(modules, groups) && id in groups && id.Folder?
    ensures m in groups[id] && m in modules && m.source == Some(id.source)
    ensures Shallowest(FoldersOn(AsSet(modules), id.source), Dirname(m.dataPath), id.folder)
  {
    m := groups[id][0];
    assert m in groups[id];
  }

  lemma {:induction false} NeverInside(modules: seq<Module>, groups: Groups, outer: Identity, inner: Identity)
    requires Grouped(modules, groups) && outer in groups && inner in groups && outer.Folder? && inner.Folder?
    requires outer.source == inner.source && Segs(outer.folder) <= Segs(inner.folder)
    ensures outer == inner
  {
    var m := ProposedFolder(modules, groups, outer);
    var n := ProposedFolder(modules, groups, inner);
    assert outer.folder in FoldersOn(AsSet(modules), inner.source);
    assert Segs(outer.folder) <= Segs(Dirname(n.dataPath));
    assert Segs(inner.folder) <= Segs(outer.folder);
    SegsInjective(outer.folder, inner.folder);
  }

  /** Every member of a proposed folder has a path inside it, which leads back to the module's own. */
  lemma {:induction false} MembersHaveRelativePaths(modules: seq<Module>, groups: Groups, id: Identity, m: Module)
    requires Grouped(modules, groups) && id in groups && id.Folder? && m in groups[id] && Canonical(m.dataPath)
    ensures m.source == Some(id.source) && RelativePath(m.dataPath, id.folder).Some?
    ensures Segs(id.folder) + Split(RelativePath(m.dataPath, id.folder).value) == Split(m.dataPath)
    ensures Shallowest(FoldersOn(AsSet(modules), id.source), Dirname(m.dataPath), id.folder)
  {
    assert IsHome(AsSet(modules), m, id);
    ContainedHasRelativePath(m.dataPath, id.folder);
  }

  /** The proposals do not depend on the order the modules are read in. */
  lemma {:induction false} GroupingIgnoresOrder(a: seq<Module>, b: seq<Module>, ga: Groups, gb: Groups)
    requires multiset(a) == multiset(b) && Grouped(a, ga) && Grouped(b, gb)
    ensures ga.Keys == gb.Keys && forall id :: id in ga ==> multiset(ga[id]) == multiset(gb[id])
  {
    SameModules(a, b);
    forall id | id in ga ensures id in gb && multiset(ga[id]) <= multiset(gb[id]) {
      HomesAgree(a, b, ga, gb, id);
    }
    forall id | id in gb ensures id in ga && multiset(gb[id]) <= multiset(ga[id]) {
      HomesAgree(b, a, gb, ga, id);
    }
  }

  lemma {:induction false} SameModules(a: seq<Module>, b: seq<Module>)
    requires multiset(a) == multiset(b)
    ensures AsSet(a) == AsSet(b)
  {
    forall m ensures m in a <==> m in b {
      assert m in multiset(a) <==> m in multiset(b);
    }
  }

  lemma {:induction false} HomesAgree(a: seq<Module>, b: seq<Module>, ga: Groups, gb: Groups, id: Identity)
    requires multiset(a) == multiset(b) && AsSet(a) == AsSet(b) && Grouped(a, ga) && Grouped(b, gb) && id in ga
    ensures id in gb && multiset(ga[id]) <= multiset(gb[id])
  {
    forall m | m in ga[id] ensures id in gb && m in gb[id] && multiset(ga[id])[m] == multiset(gb[id])[m] {
      assert m in AsSet(b);
      var other :| other in gb && m in gb[other];
      HomeIsUnique(AsSet(a), m, id, other);
    }
    assert ga[id][0] in ga[id];
  }
}
