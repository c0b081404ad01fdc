/** Building and checking the canonical manifest of a source tree (storage/manifest.py). */
module Manifest {
  import opened Prelude
  import opened Segments
  import opened SourcePaths

  datatype Entry = Entry(path: string, size: int, sha256: string)

  /** SHA-256 of a file's bytes, and of the serialized entries, both as 64 hex characters. */
  datatype Hashing = Hashing(sha: Bytes -> string, address: seq<Entry> -> string)

  function Sha(h: Hashing, b: Bytes): string { (h.sha)(b) }

  function Address(h: Hashing, entries: seq<Entry>): string { (h.address)(entries) }

  predicate IsHex64(s: string) {
    |s| == 64 && forall c :: c in s ==> '0' <= c <= '9' || 'a' <= c <= 'f'
  }

  lemma {:induction false} Hex64Exactly(s: string)
    ensures IsHex64(s) <==> |s| == 64 && forall c :: c in s ==> c in "0123456789abcdef"
  {
    forall c: char ensures c in "0123456789abcdef" <==> '0' <= c <= '9' || 'a' <= c <= 'f' {
      HexDigit(c);
    }
  }

  lemma {:induction false} HexDigit(c: char)
    ensures c in "0123456789abcdef" <==> '0' <= c <= '9' || 'a' <= c <= 'f'
  {
    var digits := "0123456789abcdef";
    assert |digits| == 16;
    assert forall k :: 0 <= k < 10 ==> digits[k] as int == 48 + k;
    assert forall k :: 10 <= k < 16 ==> digits[k] as int == 87 + k;
    if '0' <= c <= '9' || 'a' <= c <= 'f' {
      assert digits[if c <= '9' then c as int - 48 else c as int - 87] == c;
    }
  }

  /** Both digests are 64 hexadecimal characters. */
  ghost predicate Hexadecimal(h: Hashing) {
    && (forall b :: IsHex64(Sha(h, b)))
    && (forall e :: IsHex64(Address(h, e)))
  }

  /** SHA-256 tells two byte strings apart. */
  ghost predicate Distinguishes(h: Hashing, a: Bytes, b: Bytes) { Sha(h, a) == Sha(h, b) ==> a == b }

  /** No recorded byte string collides with one it may be taken for. */
  ghost predicate NoCollisions(h: Hashing, recorded: set<Bytes>, stored: set<Bytes>) {
    forall a, b :: a in stored && b in recorded ==> Distinguishes(h, a, b)
  }

  function Digits(c: char): string { seq(64, _ => c) }

  /** Both assumptions can be met together, whichever two byte strings are to be told apart. */
  lemma {:induction false} AssumptionsCanBeMet(a: Bytes, b: Bytes) returns (h: Hashing)
    ensures Hexadecimal(h) && NoCollisions(h, {a, b}, {a, b})
  {
    h := Hashing(x => if x == a then Digits('0') else Digits('1'), _ => Digits('2'));
    assert Digits('0')[0] != Digits('1')[0];
    assert forall x :: Sha(h, x) == if x == a then Digits('0') else Digits('1');
    assert forall e :: Address(h, e) == Digits('2');
  }

  datatype Limits = Limits(maxFileSize: nat, maxFileCount: nat, maxProjectSize: nat)

  datatype Code =
    | BadPath(error: PathError)
    | DuplicatePath
    | FileTooLarge
    | PathConflict(blocking: string)
    | CaseFoldConflict(node: string, other: string)
    | TooManyFiles
    | ProjectTooLarge

  datatype Problem = Problem(path: Option<string>, code: Code)

  type Files = map<string, Bytes>

  function EntryFor(h: Hashing, canonical: string, content: Bytes): Entry {
    Entry(canonical, |content|, Sha(h, content))
  }

  // ----- The walk over the source ------------------------------------------------------------------

  /** The canonical paths some spellings resolve to. */
  function Seen(u: Unicode, originals: seq<string>): set<string> {
    set k | 0 <= k < |originals| && Normalize(u, originals[k]).Ok? :: Normalize(u, originals[k]).value
  }

  /** Whether one spelling adds a candidate after the ones before it. */
  predicate Adds(u: Unicode, files: Files, limits: Limits, before: seq<string>, original: string)
    requires original in files
  {
    && Normalize(u, original).Ok?
    && Normalize(u, original).value !in Seen(u, before)
    && |files[original]| <= limits.maxFileSize
  }

  /** The candidate entries, before conflicts are rejected. */
  function Candidates(u: Unicode, h: Hashing, files: Files, limits: Limits, originals: seq<string>): seq<Entry>
    requires forall o :: o in originals ==> o in files
  {
    if originals == [] then []
    else
      var n := |originals| - 1;
      var before := Candidates(u, h, files, limits, originals[..n]);
      if Adds(u, files, limits, originals[..n], originals[n]) then
        before + [EntryFor(h, Normalize(u, originals[n]).value, files[originals[n]])]
      else before
  }

  /** Every spelling adds its candidate: nothing is unsafe, duplicated or too large. */
  ghost predicate AllAdd(u: Unicode, files: Files, limits: Limits, originals: seq<string>)
    requires forall o :: o in originals ==> o in files
  {
    forall k :: 0 <= k < |originals| ==> Adds(u, files, limits, originals[..k], originals[k])
  }

  /** The error one spelling leaves behind when it adds no candidate. */
  function Fault(u: Unicode, files: Files, limits: Limits, before: seq<string>, original: string): Option<Problem>
    requires original in files
  {
    match Normalize(u, original)
    case Err(error) => Some(Problem(Some(original), BadPath(error)))
    case Ok(canonical) =>
      if canonical in Seen(u, before) then Some(Problem(Some(original), DuplicatePath))
      else if |files[original]| > limits.maxFileSize then Some(Problem(Some(canonical), FileTooLarge))
      else None
  }

  /** The errors of the walk, in its order. */
  function Faults(u: Unicode, files: Files, limits: Limits, originals: seq<string>): seq<Problem>
    requires forall o :: o in originals ==> o in files
  {
    if originals == [] then []
    else
      var n := |originals| - 1;
      var fault := Fault(u, files, limits, originals[..n], originals[n]);
      Faults(u, files, limits, originals[..n]) + if fault.Some? then [fault.value] else []
  }

  /** Every spelling is either a candidate or an error. */
  lemma {:induction false} FaultsAccount(u: Unicode, h: Hashing, files: Files, limits: Limits, originals: seq<string>)
    requires forall o :: o in originals ==> o in files
    ensures |Candidates(u, h, files, limits, originals)| + |Faults(u, files, limits, originals)| == |originals|
  {
    if originals != [] {
      var n := |originals| - 1;
      FaultsAccount(u, h, files, limits, originals[..n]);
      AddsUnlessFault(u, files, limits, originals[..n], originals[n]);
      CandidatesNext(u, h, files, limits, originals);
    }
  }

  lemma {:induction false} CandidatesNext(u: Unicode, h: Hashing, files: Files, limits: Limits, originals: seq<string>)
    requires originals != [] && forall o :: o in originals ==> o in files
    ensures var n := |originals| - 1;
      |Candidates(u, h, files, limits, originals)|
      == |Candidates(u, h, files, limits, originals[..n])|
         + if Adds(u, files, limits, originals[..n], originals[n]) then 1 else 0
  {
  }

  /** The walk is silent exactly when every spelling adds its candidate. */
  lemma {:induction false} SilentWalk(u: Unicode, files: Files, limits: Limits, originals: seq<string>)
    requires forall o :: o in originals ==> o in files
    ensures Faults(u, files, limits, originals) == [] <==> AllAdd(u, files, limits, originals)
  {
    if originals != [] {
      var n := |originals| - 1;
      SilentWalk(u, files, limits, originals[..n]);
      AllAddNext(u, files, limits, originals, n);
      assert originals[..n + 1] == originals;
      AddsUnlessFault(u, files, limits, originals[..n], originals[n]);
    }
  }

  lemma {:induction false} AddsUnlessFault(u: Unicode, files: Files, limits: Limits, before: seq<string>,
                                           original: string)
    requires original in files
    ensures Adds(u, files, limits, before, original) <==> Fault(u, files, limits, before, original).None?
  {
  }

  function PathsOf(entries: seq<Entry>): set<string> { set e | e in entries :: e.path }

  ghost predicate DistinctPaths(entries: seq<Entry>) {
    forall i, k :: 0 <= i < k < |entries| ==> entries[i].path != entries[k].path
  }

  /** A candidate records a spelling's content under its canonical path. */
  ghost predicate Describes(u: Unicode, h: Hashing, files: Files, entry: Entry, original: string) {
    original in files && Normalize(u, original) == Ok(entry.path) && entry == EntryFor(h, entry.path, files[original])
  }

  lemma {:induction false} CandidatesDescribe(u: Unicode, h: Hashing, files: Files, limits: Limits,
                                              originals: seq<string>)
    requires forall o :: o in originals ==> o in files
    ensures var c := Candidates(u, h, files, limits, originals);
      && PathsOf(c) <= Seen(u, originals) && DistinctPaths(c)
      && (forall e :: e in c ==> exists o :: o in originals && Describes(u, h, files, e, o))
  {
    if originals != [] {
      var n := |originals| - 1;
      CandidatesDescribe(u, h, files, limits, originals[..n]);
      SeenNext(u, originals, n);
      assert originals[..n + 1] == originals;
      DescribedNext(u, h, files, limits, originals, Candidates(u, h, files, limits, originals[..n]));
    }
  }

  lemma {:induction false} DescribedNext(u: Unicode, h: Hashing, files: Files, limits: Limits, originals: seq<string>,
                                         before: seq<Entry>)
    requires originals != [] && forall o :: o in originals ==> o in files
    requires var n := |originals| - 1;
      && before == Candidates(u, h, files, limits, originals[..n])
      && PathsOf(before) <= Seen(u, originals[..n]) <= Seen(u, originals) && DistinctPaths(before)
      && (forall e :: e in before ==> exists o :: o in originals[..n] && Describes(u, h, files, e, o))
      && (Normalize(u, originals[n]).Ok? ==> Normalize(u, originals[n]).value in Seen(u, originals))
    ensures var c := Candidates(u, h, files, limits, originals);
      && PathsOf(c) <= Seen(u, originals) && DistinctPaths(c)
      && (forall e :: e in c ==> exists o :: o in originals && Describes(u, h, files, e, o))
  {
    var n := |originals| - 1;
    assert forall i :: 0 <= i < |before| ==> before[i].path in PathsOf(before);
    forall e | e in Candidates(u, h, files, limits, originals)
      ensures exists o :: o in originals && Describes(u, h, files, e, o)
    {
      if e in before {
        var o :| o in originals[..n] && Describes(u, h, files, e, o);
        assert o in originals;
      } else {
        assert originals[n] in originals && Describes(u, h, files, e, originals[n]);
      }
    }
  }

  /** No spelling before the k-th resolves to the path it resolves to. */
  ghost predicate First(u: Unicode, originals: seq<string>, k: nat)
    requires k < |originals|
  {
    forall i :: 0 <= i < k ==> Normalize(u, originals[i]) != Normalize(u, originals[k])
  }

  /** The k-th spelling puts an entry in: the first for its path, with content no larger than allowed. */
  ghost predicate PutsIn(u: Unicode, h: Hashing, files: Files, limits: Limits, originals: seq<string>, k: nat, e: Entry)
    requires k < |originals|
  {
    && originals[k] in files && Normalize(u, originals[k]) == Ok(e.path) && First(u, originals, k)
    && |files[originals[k]]| <= limits.maxFileSize
    && e.size == |files[originals[k]]| && e.sha256 == Sha(h, files[originals[k]])
  }

  lemma {:induction false} SeenExactly(u: Unicode, originals: seq<string>, c: string)
    ensures c in Seen(u, originals) <==> exists i :: 0 <= i < |originals| && Normalize(u, originals[i]) == Ok(c)
  {
  }

  lemma {:induction false} AddsWhenFirst(u: Unicode, files: Files, limits: Limits, originals: seq<string>, k: nat)
    requires k < |originals| && originals[k] in files
    ensures Adds(u, files, limits, originals[..k], originals[k]) <==>
              && Normalize(u, originals[k]).Ok? && First(u, originals, k)
              && |files[originals[k]]| <= limits.maxFileSize
  {
    if Normalize(u, originals[k]).Ok? {
      var c := Normalize(u, originals[k]).value;
      SeenExactly(u, originals[..k], c);
      assert forall i :: 0 <= i < k ==> originals[..k][i] == originals[i];
      if c in Seen(u, originals[..k]) {
        var i :| 0 <= i < k && Normalize(u, originals[..k][i]) == Ok(c);
        assert Normalize(u, originals[i]) == Normalize(u, originals[k]);
      }
      if !First(u, originals, k) {
        var i :| 0 <= i < k && Normalize(u, originals[i]) == Normalize(u, originals[k]);
        assert Normalize(u, originals[..k][i]) == Ok(c);
      }
    }
  }

  /** The candidates are exactly what the first spellings of their paths put in. */
  lemma {:induction false} CandidatesExactly(u: Unicode, h: Hashing, files: Files, limits: Limits,
                                             originals: seq<string>, e: Entry)
    requires forall o :: o in originals ==> o in files
    ensures e in Candidates(u, h, files, limits, originals) <==>
              exists k :: 0 <= k < |originals| && PutsIn(u, h, files, limits, originals, k, e)
  {
    if originals != [] {
      var n := |originals| - 1;
      CandidatesExactly(u, h, files, limits, originals[..n], e);
      AddsWhenFirst(u, files, limits, originals, n);
      forall k | 0 <= k < n
        ensures PutsIn(u, h, files, limits, originals[..n], k, e) <==> PutsIn(u, h, files, limits, originals, k, e)
      {
        assert originals[..n][k] == originals[k];
        assert forall i :: 0 <= i < k ==> originals[..n][i] == originals[i];
      }
      CandidateLast(u, h, files, limits, originals, e);
    }
  }

  lemma {:induction false} CandidateLast(u: Unicode, h: Hashing, files: Files, limits: Limits, originals: seq<string>,
                                         e: Entry)
    requires originals != [] && forall o :: o in originals ==> o in files
    ensures var n := |originals| - 1;
      e in Candidates(u, h, files, limits, originals) <==>
        e in Candidates(u, h, files, limits, originals[..n]) || PutsIn(u, h, files, limits, originals, n, e)
  {
    AddsWhenFirst(u, files, limits, originals, |originals| - 1);
  }

  /** The error of a spelling that adds nothing: why its path is refused, that it is not the first, or its size. */
  lemma {:induction false} FaultExactly(u: Unicode, files: Files, limits: Limits, originals: seq<string>, k: nat)
    requires k < |originals| && originals[k] in files
    ensures var fault, r := Fault(u, files, limits, originals[..k], originals[k]), Normalize(u, originals[k]);
      && (r.Err? ==> fault == Some(Problem(Some(originals[k]), BadPath(r.error))))
      && (r.Ok? && !First(u, originals, k) ==> fault == Some(Problem(Some(originals[k]), DuplicatePath)))
      && (r.Ok? && First(u, originals, k) ==>
            fault == if |files[originals[k]]| > limits.maxFileSize then Some(Problem(Some(r.value), FileTooLarge))
                     else None)
  {
    AddsWhenFirst(u, files, Limits(|files[originals[k]]|, 0, 0), originals, k);
  }

  // ----- Conflicts between candidates ----------------------------------------------------------------

  /** The shallowest ancestor of a path that is itself a file, as the writer would meet it. */
  ghost predicate Blocks(files: set<string>, path: string, ancestor: string) {
    exists k :: 0 < k < |Split(path)| && ancestor == Node(path, k) && ancestor in files
                && forall i :: 0 < i < k ==> Node(path, i) !in files
  }

  ghost predicate Blocked(files: set<string>, path: string) {
    exists k :: 0 < k < |Split(path)| && Node(path, k) in files
  }

  method Blocking(files: set<string>, path: string) returns (ancestor: Option<string>)
    ensures ancestor.Some? <==> Blocked(files, path)
    ensures ancestor.Some? ==> Blocks(files, path, ancestor.value)
  {
    for k := 1 to |Split(path)|
      invariant forall i :: 0 < i < k ==> Node(path, i) !in files
    {
      if Node(path, k) in files {
        return Some(Node(path, k));
      }
    }
    return None;
  }

  /** The entries whose path is not among some dropped ones, in order. */
  function Without(entries: seq<Entry>, dropped: set<string>): seq<Entry> {
    if entries == [] then []
    else
      var n := |entries| - 1;
      Without(entries[..n], dropped) + if entries[n].path in dropped then [] else [entries[n]]
  }

  lemma {:induction false} WithoutMembers(entries: seq<Entry>, dropped: set<string>)
    ensures forall e :: e in Without(entries, dropped) <==> e in entries && e.path !in dropped
  {
    if entries != [] {
      var n := |entries| - 1;
      WithoutMembers(entries[..n], dropped);
      assert entries == entries[..n] + [entries[n]];
    }
  }

  lemma {:induction false} WithoutDistinct(entries: seq<Entry>, dropped: set<string>)
    requires DistinctPaths(entries)
    ensures DistinctPaths(Without(entries, dropped)) && |Without(entries, dropped)| <= |entries|
  {
    if entries != [] {
      var n := |entries| - 1;
      WithoutDistinct(entries[..n], dropped);
      LastIsApart(entries, Without(entries[..n], dropped), dropped);
    }
  }

  lemma {:induction false} LastIsApart(entries: seq<Entry>, kept: seq<Entry>, dropped: set<string>)
    requires entries != [] && DistinctPaths(entries) && kept == Without(entries[..|entries| - 1], dropped)
    ensures forall i :: 0 <= i < |kept| ==> kept[i].path != entries[|entries| - 1].path
  {
    var before := entries[..|entries| - 1];
    WithoutMembers(before, dropped);
    forall i | 0 <= i < |kept| ensures kept[i].path != entries[|entries| - 1].path {
      assert kept[i] in before;
      var k :| 0 <= k < |before| && before[k] == kept[i];
      assert before[k] == entries[k];
    }
  }

  lemma {:induction false} WithoutNext(entries: seq<Entry>, dropped: set<string>, i: nat)
    requires i < |entries|
    ensures Without(entries[..i + 1], dropped)
         == Without(entries[..i], dropped) + if entries[i].path in dropped then [] else [entries[i]]
  {
    assert entries[..i + 1][..i] == entries[..i];
  }

  /** The paths of the entries dropped, in order. */
  function DroppedPaths(entries: seq<Entry>, dropped: set<string>): seq<string> {
    if entries == [] then []
    else
      var n := |entries| - 1;
      DroppedPaths(entries[..n], dropped) + if entries[n].path in dropped then [entries[n].path] else []
  }

  lemma {:induction false} DroppedNext(entries: seq<Entry>, dropped: set<string>, i: nat)
    requires i < |entries|
    ensures DroppedPaths(entries[..i + 1], dropped)
         == DroppedPaths(entries[..i], dropped) + if entries[i].path in dropped then [entries[i].path] else []
  {
    assert entries[..i + 1][..i] == entries[..i];
  }

  /** Every entry is either kept or among those dropped, each once when no path occurs twice. */
  lemma {:induction false} DroppedAreTheRest(entries: seq<Entry>, dropped: set<string>)
    ensures |Without(entries, dropped)| + |DroppedPaths(entries, dropped)| == |entries|
    ensures forall p :: p in DroppedPaths(entries, dropped) <==> p in dropped && p in PathsOf(entries)
    ensures DistinctPaths(entries) ==>
      forall i, k :: 0 <= i < k < |DroppedPaths(entries, dropped)| ==>
        DroppedPaths(entries, dropped)[i] != DroppedPaths(entries, dropped)[k]
  {
    if entries != [] {
      var n := |entries| - 1;
      DroppedAreTheRest(entries[..n], dropped);
      assert entries == entries[..n] + [entries[n]];
      assert PathsOf(entries) == PathsOf(entries[..n]) + {entries[n].path};
      if DistinctPaths(entries) {
        assert DistinctPaths(entries[..n]);
        assert entries[n].path !in PathsOf(entries[..n]);
      }
    }
  }

  /** One error for each of some paths, in order. */
  ghost predicate NamePaths(errors: seq<Problem>, paths: seq<string>) {
    |errors| == |paths| && forall k :: 0 <= k < |errors| ==> errors[k].path == Some(paths[k])
  }

  /** The paths another candidate's file stands above. */
  ghost function BlockedPaths(files: set<string>): set<string> { set p | p in files && Blocked(files, p) }

  /** The paths that collide with another when letter case is ignored. */
  ghost function CollidingPaths(u: Unicode, paths: set<string>): set<string> {
    set p | p in paths && Rejected(u, paths, p)
  }

  ghost function Unblocked(entries: seq<Entry>): seq<Entry> {
    Without(entries, BlockedPaths(PathsOf(entries)))
  }

  /** What both passes leave. */
  ghost function Accepted(u: Unicode, entries: seq<Entry>): seq<Entry> {
    Without(Unblocked(entries), CollidingPaths(u, PathsOf(Unblocked(entries))))
  }

  /** Every error names a blocked path with the ancestor that blocks it. */
  ghost predicate NameBlocks(files: set<string>, errors: seq<Problem>) {
    forall p :: p in errors ==>
      p.path.Some? && p.code.PathConflict? && Blocks(files, p.path.value, p.code.blocking)
  }

  /** Every error names a colliding path with its shallowest colliding node and the least other name. */
  ghost predicate NameCollisions(u: Unicode, paths: set<string>, errors: seq<Problem>) {
    forall p :: p in errors ==>
      p.path.Some? && p.code.CaseFoldConflict? && Reported(u, paths, p.path.value, (p.code.node, p.code.other))
  }

  method RejectBlocked(entries: seq<Entry>) returns (kept: seq<Entry>, errors: seq<Problem>)
    ensures kept == Unblocked(entries)
    ensures NameBlocks(PathsOf(entries), errors)
    ensures NamePaths(errors, DroppedPaths(entries, BlockedPaths(PathsOf(entries))))
  {
    var files := PathsOf(entries);
    ghost var dropped := BlockedPaths(files);
    kept, errors := [], [];
    for i := 0 to |entries|
      invariant kept == Without(entries[..i], dropped) && NamePaths(errors, DroppedPaths(entries[..i], dropped))
      invariant NameBlocks(files, errors)
    {
      var blocking := Blocking(files, entries[i].path);
      WithoutNext(entries, dropped, i);
      DroppedNext(entries, dropped, i);
      assert entries[i].path in files;
      if blocking.None? {
        kept := kept + [entries[i]];
      } else {
        errors := errors + [Problem(Some(entries[i].path), PathConflict(blocking.value))];
      }
    }
    assert entries[..|entries|] == entries;
  }

  method RejectColliding(u: Unicode, entries: seq<Entry>) returns (kept: seq<Entry>, errors: seq<Problem>)
    ensures kept == Without(entries, CollidingPaths(u, PathsOf(entries)))
    ensures NameCollisions(u, PathsOf(entries), errors)
    ensures NamePaths(errors, DroppedPaths(entries, CollidingPaths(u, PathsOf(entries))))
  {
    var paths := seq(|entries|, k requires 0 <= k < |entries| => entries[k].path);
    ListedPaths(entries, paths);
    var collisions := CaseInsensitiveCollisions(u, paths);
    assert collisions.Keys == CollidingPaths(u, PathsOf(entries)) by {
      assert forall p :: p in collisions <==> p in CollidingPaths(u, PathsOf(entries));
    }
    kept, errors := DropColliding(u, entries, collisions);
  }

  /** What the scan for colliding entries has kept and reported after the first i entries. */
  ghost predicate Scanned(u: Unicode, entries: seq<Entry>, dropped: set<string>, i: nat,
                          kept: seq<Entry>, errors: seq<Problem>) {
    && i <= |entries| && kept == Without(entries[..i], dropped)
    && NamePaths(errors, DroppedPaths(entries[..i], dropped))
    && NameCollisions(u, PathsOf(entries), errors)
  }

  lemma {:induction false} ScanDrops(u: Unicode, entries: seq<Entry>, dropped: set<string>, i: nat, kept: seq<Entry>,
                                     errors: seq<Problem>, pair: (string, string))
    requires i < |entries| && Scanned(u, entries, dropped, i, kept, errors) && entries[i].path in dropped
    requires Reported(u, PathsOf(entries), entries[i].path, pair)
    ensures Scanned(u, entries, dropped, i + 1, kept,
                    errors + [Problem(Some(entries[i].path), CaseFoldConflict(pair.0, pair.1))])
  {
    WithoutNext(entries, dropped, i);
    DroppedNext(entries, dropped, i);
  }

  lemma {:induction false} ScanKeeps(u: Unicode, entries: seq<Entry>, dropped: set<string>, i: nat, kept: seq<Entry>,
                                     errors: seq<Problem>)
    requires i < |entries| && Scanned(u, entries, dropped, i, kept, errors) && entries[i].path !in dropped
    ensures Scanned(u, entries, dropped, i + 1, kept + [entries[i]], errors)
  {
    WithoutNext(entries, dropped, i);
    DroppedNext(entries, dropped, i);
  }

  method DropColliding(u: Unicode, entries: seq<Entry>, collisions: map<string, (string, string)>)
    returns (kept: seq<Entry>, errors: seq<Problem>)
    requires forall p :: p in collisions ==> Reported(u, PathsOf(entries), p, collisions[p])
    ensures kept == Without(entries, collisions.Keys)
    ensures NameCollisions(u, PathsOf(entries), errors)
    ensures NamePaths(errors, DroppedPaths(entries, collisions.Keys))
  {
    kept, errors := [], [];
    for i := 0 to |entries|
      invariant Scanned(u, entries, collisions.Keys, i, kept, errors)
    {
      var path := entries[i].path;
      if path in collisions {
        ScanDrops(u, entries, collisions.Keys, i, kept, errors, collisions[path]);
        errors := errors + [Problem(Some(path), CaseFoldConflict(collisions[path].0, collisions[path].1))];
      } else {
        ScanKeeps(u, entries, collisions.Keys, i, kept, errors);
        kept := kept + [entries[i]];
      }
    }
    assert entries[..|entries|] == entries;
  }

  lemma {:induction false} ListedPaths(entries: seq<Entry>, paths: seq<string>)
    requires |paths| == |entries| && forall k :: 0 <= k < |paths| ==> paths[k] == entries[k].path
    ensures Among(paths) == PathsOf(entries) && forall p :: p in paths <==> p in PathsOf(entries)
  {
    forall p | p in PathsOf(entries) ensures p in paths {
      var e :| e in entries && e.path == p;
      var k :| 0 <= k < |entries| && entries[k] == e;
      assert paths[k] == p;
    }
  }

  /** The paths of the entries both passes drop: the blocked ones first, each pass in order. */
  ghost function ConflictingEntries(u: Unicode, entries: seq<Entry>): seq<string> {
    DroppedPaths(entries, BlockedPaths(PathsOf(entries)))
    + DroppedPaths(Unblocked(entries), CollidingPaths(u, PathsOf(Unblocked(entries))))
  }

  /** One error for each entry both passes drop, in that order, and what it conflicts with. */
  ghost predicate NameConflicts(u: Unicode, entries: seq<Entry>, errors: seq<Problem>) {
    var blocked := |DroppedPaths(entries, BlockedPaths(PathsOf(entries)))|;
    && NamePaths(errors, ConflictingEntries(u, entries))
    && NameBlocks(PathsOf(entries), errors[..blocked])
    && NameCollisions(u, PathsOf(Unblocked(entries)), errors[blocked..])
  }

  /** The errors account for exactly the entries that are not accepted. */
  lemma {:induction false} ConflictsAccount(u: Unicode, entries: seq<Entry>, errors: seq<Problem>)
    requires NameConflicts(u, entries, errors)
    ensures |Accepted(u, entries)| + |errors| == |entries|
  {
    DroppedAreTheRest(entries, BlockedPaths(PathsOf(entries)));
    DroppedAreTheRest(Unblocked(entries), CollidingPaths(u, PathsOf(Unblocked(entries))));
  }

  /** _reject_path_conflicts. */
  method RejectPathConflicts(u: Unicode, entries: seq<Entry>) returns (remaining: seq<Entry>, errors: seq<Problem>)
    ensures remaining == Accepted(u, entries) && NameConflicts(u, entries, errors)
    ensures |remaining| + |errors| == |entries|
  {
    var kept, blocked := RejectBlocked(entries);
    var apart, colliding := RejectColliding(u, kept);
    remaining, errors := apart, blocked + colliding;
    assert errors[..|blocked|] == blocked && errors[|blocked|..] == colliding;
    ConflictsAccount(u, entries, errors);
  }

  /** The entries dropped are those not accepted. */
  lemma {:induction false} ConflictingMembers(u: Unicode, entries: seq<Entry>, e: Entry)
    requires e in entries
    ensures e.path in ConflictingEntries(u, entries) <==> e !in Accepted(u, entries)
  {
    var blocked, colliding := BlockedPaths(PathsOf(entries)), CollidingPaths(u, PathsOf(Unblocked(entries)));
    DroppedAreTheRest(entries, blocked);
    DroppedAreTheRest(Unblocked(entries), colliding);
    WithoutMembers(entries, blocked);
    AcceptedMembers(u, entries, e);
    assert e in Unblocked(entries) ==> e.path in PathsOf(Unblocked(entries));
    assert e.path in PathsOf(entries);
  }

  ghost predicate Distinct(paths: seq<string>) { forall i, k :: 0 <= i < k < |paths| ==> paths[i] != paths[k] }

  lemma {:induction false} DistinctTogether(a: seq<string>, b: seq<string>)
    requires Distinct(a) && Distinct(b) && forall p :: p in a ==> p !in b
    ensures Distinct(a + b)
  {
    forall i, k | 0 <= i < k < |a + b| ensures (a + b)[i] != (a + b)[k] {
      if i < |a| <= k {
        assert a[i] in a && b[k - |a|] in b;
      }
    }
  }

  lemma {:induction false} ConflictingAreDistinct(u: Unicode, entries: seq<Entry>)
    requires DistinctPaths(entries)
    ensures Distinct(ConflictingEntries(u, entries))
    ensures forall p :: p in ConflictingEntries(u, entries) ==> p in PathsOf(entries)
  {
    var blocked, colliding := BlockedPaths(PathsOf(entries)), CollidingPaths(u, PathsOf(Unblocked(entries)));
    DroppedAreTheRest(entries, blocked);
    WithoutDistinct(entries, blocked);
    DroppedAreTheRest(Unblocked(entries), colliding);
    WithoutMembers(entries, blocked);
    DistinctTogether(DroppedPaths(entries, blocked), DroppedPaths(Unblocked(entries), colliding));
  }

  /** With no path twice, the errors name each entry that is not accepted exactly once, and nothing else. */
  lemma {:induction false} ConflictsNameTheDropped(u: Unicode, entries: seq<Entry>, errors: seq<Problem>)
    requires DistinctPaths(entries) && NameConflicts(u, entries, errors)
    ensures forall e :: e in entries ==> (e !in Accepted(u, entries) <==> Named(errors, e.path))
    ensures forall p :: p in errors ==> p.path.Some? && p.path.value in PathsOf(entries)
    ensures forall i, k :: 0 <= i < k < |errors| ==> errors[i].path != errors[k].path
  {
    var all := ConflictingEntries(u, entries);
    ConflictingAreDistinct(u, entries);
    forall e | e in entries ensures e !in Accepted(u, entries) <==> Named(errors, e.path) {
      ConflictingMembers(u, entries, e);
      NamedIsListed(errors, all, e.path);
    }
    forall p | p in errors ensures p.path.Some? && p.path.value in PathsOf(entries) {
      var k :| 0 <= k < |errors| && errors[k] == p;
      assert all[k] in all;
    }
  }

  ghost predicate Named(errors: seq<Problem>, path: string) {
    exists k :: 0 <= k < |errors| && errors[k].path == Some(path)
  }

  lemma {:induction false} NamedIsListed(errors: seq<Problem>, paths: seq<string>, path: string)
    requires NamePaths(errors, paths)
    ensures Named(errors, path) <==> path in paths
  {
    if path in paths {
      var k :| 0 <= k < |paths| && paths[k] == path;
      assert errors[k].path == Some(path);
    }
  }

  // ----- Accepted entries never clash, and every drop is a real clash --------------------------------

  /** Some node of b, ignoring case, is the whole of a. */
  ghost predicate Shadows(u: Unicode, a: string, b: string) {
    exists k :: 0 <= k < |Nodes(b)| && Lower(u, a) == Lower(u, Nodes(b)[k])
  }

  lemma {:induction false} AcceptedMembers(u: Unicode, entries: seq<Entry>, e: Entry)
    ensures e in Accepted(u, entries) <==>
            && e in entries
            && !Blocked(PathsOf(entries), e.path)
            && !Rejected(u, PathsOf(Unblocked(entries)), e.path)
  {
    WithoutMembers(entries, BlockedPaths(PathsOf(entries)));
    WithoutMembers(Unblocked(entries), CollidingPaths(u, PathsOf(Unblocked(entries))));
    assert e in entries ==> e.path in PathsOf(entries);
    assert e in Unblocked(entries) ==> e.path in PathsOf(Unblocked(entries));
  }

  lemma {:induction false} AncestorBlocks(files: set<string>, a: string, b: string, k: nat)
    requires a in files && a != b && k < |Nodes(b)| && Nodes(b)[k] == a
    ensures Blocked(files, b)
  {
    WholeNode(b);
    var depth := k + 1;
    assert Node(b, depth) == a && 0 < depth < |Split(b)|;
  }

  /** No accepted path matches, ignoring case, another accepted path or an ancestor of one. */
  lemma {:induction false} AcceptedNeverClash(u: Unicode, entries: seq<Entry>, a: Entry, b: Entry)
    requires a in Accepted(u, entries) && b in Accepted(u, entries) && a.path != b.path
    ensures !Shadows(u, a.path, b.path)
  {
    AcceptedMembers(u, entries, a);
    AcceptedMembers(u, entries, b);
    WithoutMembers(entries, BlockedPaths(PathsOf(entries)));
    var paths := PathsOf(Unblocked(entries));
    forall k | 0 <= k < |Nodes(b.path)| ensures Lower(u, a.path) != Lower(u, Nodes(b.path)[k]) {
      WholeNode(a.path);
      if Lower(u, a.path) == Lower(u, Nodes(b.path)[k]) {
        SameFormSameNode(u, paths, b.path, k, a.path);
        AncestorBlocks(PathsOf(entries), a.path, b.path, k);
        assert false;
      }
    }
  }

  lemma {:induction false} SameFormSameNode(u: Unicode, paths: set<string>, b: string, k: nat, a: string)
    requires a in paths && k < |Nodes(b)| && !Rejected(u, paths, b)
    requires Lower(u, a) == Lower(u, Nodes(b)[k])
    ensures Nodes(b)[k] == a
  {
    WholeNode(a);
    assert Nodes(a)[|Nodes(a)| - 1] == a;
    assert a in NamesOf(u, paths, Lower(u, Nodes(b)[k]));
    assert !Collides(u, paths, Nodes(b)[k]);
  }

  /** Two paths that cannot share a tree: one is an ancestor of the other, or two nodes differ only in case. */
  ghost predicate Clash(u: Unicode, path: string, other: string) {
    || (exists k :: 0 < k < |Split(path)| && Node(path, k) == other)
    || (exists i, k :: 0 <= i < |Nodes(path)| && 0 <= k < |Nodes(other)| && Nodes(path)[i] != Nodes(other)[k]
                       && Lower(u, Nodes(path)[i]) == Lower(u, Nodes(other)[k]))
  }

  /** Every candidate that is dropped clashes with another candidate. */
  lemma {:induction false} DroppedReallyClash(u: Unicode, entries: seq<Entry>, e: Entry)
    requires e in entries && e !in Accepted(u, entries)
    ensures exists other :: other in entries && Clash(u, e.path, other.path)
  {
    AcceptedMembers(u, entries, e);
    WithoutMembers(entries, BlockedPaths(PathsOf(entries)));
    var paths := PathsOf(Unblocked(entries));
    if Blocked(PathsOf(entries), e.path) {
      var k :| 0 < k < |Split(e.path)| && Node(e.path, k) in PathsOf(entries);
      var other :| other in entries && other.path == Node(e.path, k);
      assert Clash(u, e.path, other.path);
    } else {
      var i :| 0 <= i < |Nodes(e.path)| && Collides(u, paths, Nodes(e.path)[i]);
      var name :| name in NamesOf(u, paths, Lower(u, Nodes(e.path)[i])) && name != Nodes(e.path)[i];
      var p, k :| p in paths && 0 <= k < |Nodes(p)| && Nodes(p)[k] == name
                  && Lower(u, Nodes(p)[k]) == Lower(u, Nodes(e.path)[i]);
      var other :| other in Unblocked(entries) && other.path == p;
      assert Clash(u, e.path, other.path);
    }
  }

  // ----- Building ------------------------------------------------------------------------------------

  function TotalSize(files: Files, originals: seq<string>): nat
    requires forall o :: o in originals ==> o in files
  {
    if originals == [] then 0
    else |files[originals[|originals| - 1]]| + TotalSize(files, originals[..|originals| - 1])
  }

  method Walk(u: Unicode, h: Hashing, files: Files, limits: Limits, originals: seq<string>)
    returns (entries: seq<Entry>, errors: seq<Problem>)
    requires forall o :: o in originals ==> o in files
    ensures entries == Candidates(u, h, files, limits, originals)
    ensures errors == Faults(u, files, limits, originals)
  {
    entries, errors := [], [];
    var seen: set<string> := {};
    for i := 0 to |originals|
      invariant seen == Seen(u, originals[..i])
      invariant entries == Candidates(u, h, files, limits, originals[..i])
      invariant errors == Faults(u, files, limits, originals[..i])
    {
      var original := originals[i];
      var canonical := Normalize(u, original);
      assert originals[..i + 1][..i] == originals[..i];
      SeenNext(u, originals, i);
      if canonical.Err? {
        errors := errors + [Problem(Some(original), BadPath(canonical.error))];
      } else if canonical.value in seen {
        errors := errors + [Problem(Some(original), DuplicatePath)];
      } else {
        seen := seen + {canonical.value};
        if |files[original]| > limits.maxFileSize {
          errors := errors + [Problem(Some(canonical.value), FileTooLarge)];
        } else {
          entries := entries + [EntryFor(h, canonical.value, files[original])];
        }
      }
    }
    assert originals[..|originals|] == originals;
  }

  lemma {:induction false} SeenNext(u: Unicode, originals: seq<string>, i: nat)
    requires i < |originals|
    ensures Seen(u, originals[..i + 1])
         == Seen(u, originals[..i]) + if Normalize(u, originals[i]).Ok? then {Normalize(u, originals[i]).value} else {}
  {
    assert forall k :: 0 <= k < i ==> originals[..i + 1][k] == originals[..i][k];
    assert originals[..i + 1][i] == originals[i];
    forall c | c in Seen(u, originals[..i]) ensures c in Seen(u, originals[..i + 1]) {
      var k :| 0 <= k < i && Normalize(u, originals[..i][k]) == Ok(c);
      assert originals[..i + 1][k] == originals[..i][k];
    }
  }

  lemma {:induction false} AllAddNext(u: Unicode, files: Files, limits: Limits, originals: seq<string>, i: nat)
    requires i < |originals| && forall o :: o in originals ==> o in files
    ensures AllAdd(u, files, limits, originals[..i + 1])
       <==> AllAdd(u, files, limits, originals[..i]) && Adds(u, files, limits, originals[..i], originals[i])
  {
    forall k | 0 <= k < i
      ensures originals[..i + 1][..k] == originals[..i][..k] && originals[..i + 1][k] == originals[..i][k]
    {
    }
    assert originals[..i + 1][..i] == originals[..i] && originals[..i + 1][i] == originals[i];
    if AllAdd(u, files, limits, originals[..i + 1]) {
      assert Adds(u, files, limits, originals[..i + 1][..i], originals[..i + 1][i]);
      forall k | 0 <= k < i ensures Adds(u, files, limits, originals[..i][..k], originals[..i][k]) {
        assert Adds(u, files, limits, originals[..i + 1][..k], originals[..i + 1][k]);
      }
    }
  }

  ghost predicate Indexes(byPath: map<string, Entry>, entries: seq<Entry>) {
    && byPath.Keys == PathsOf(entries)
    && (forall p :: p in byPath ==> byPath[p] in entries && byPath[p].path == p)
  }

  lemma {:induction false} IndexesNext(byPath: map<string, Entry>, entries: seq<Entry>, i: nat)
    requires i < |entries| && DistinctPaths(entries) && Indexes(byPath, entries[..i])
    ensures entries[i].path !in byPath && Indexes(byPath[entries[i].path := entries[i]], entries[..i + 1])
  {
    var e := entries[i];
    assert entries[..i + 1] == entries[..i] + [e];
    assert PathsOf(entries[..i + 1]) == PathsOf(entries[..i]) + {e.path};
  }

  method IndexByPath(entries: seq<Entry>) returns (byPath: map<string, Entry>)
    requires DistinctPaths(entries)
    ensures Indexes(byPath, entries) && |byPath| == |entries|
  {
    byPath := map[];
    for i := 0 to |entries|
      invariant |byPath| == i && Indexes(byPath, entries[..i])
    {
      IndexesNext(byPath, entries, i);
      byPath := byPath[entries[i].path := entries[i]];
    }
    assert entries[..|entries|] == entries;
  }

  /** The entries in path order. */
  ghost predicate Listing(sorted: seq<Entry>, entries: seq<Entry>) {
    && SortedEntries(sorted) && |sorted| == |entries|
    && (forall e :: e in sorted <==> e in entries)
  }

  /** entries.sort(key=path). */
  method SortEntries(entries: seq<Entry>) returns (sorted: seq<Entry>)
    requires DistinctPaths(entries)
    ensures Listing(sorted, entries)
  {
    var byPath := IndexByPath(entries);
    var paths := Sorted(byPath.Keys);
    sorted := seq(|paths|, k requires 0 <= k < |paths| && paths[k] in byPath => byPath[paths[k]]);
    ArrangedMembers(entries, byPath, paths, sorted);
  }

  lemma {:induction false} ArrangedMembers(entries: seq<Entry>, byPath: map<string, Entry>, paths: seq<string>,
                                           sorted: seq<Entry>)
    requires DistinctPaths(entries) && Indexes(byPath, entries) && |sorted| == |paths|
    requires forall p :: p in paths <==> p in byPath
    requires forall k :: 0 <= k < |paths| ==> paths[k] in byPath && sorted[k] == byPath[paths[k]]
    ensures forall e :: e in sorted <==> e in entries
  {
    forall e | e in entries ensures e in sorted {
      assert e.path in PathsOf(entries);
      var k :| 0 <= k < |paths| && paths[k] == e.path;
      var i :| 0 <= i < |entries| && entries[i] == e;
      var j :| 0 <= j < |entries| && entries[j] == byPath[e.path];
      assert sorted[k] == e;
    }
  }

  ghost predicate SortedEntries(entries: seq<Entry>) {
    forall i, k :: 0 <= i < k < |entries| ==> Before(entries[i].path, entries[k].path)
  }

  /** What makes a source tree storable without a single problem. */
  ghost predicate Clean(u: Unicode, h: Hashing, files: Files, limits: Limits, originals: seq<string>)
    requires forall o :: o in originals ==> o in files
  {
    && AllAdd(u, files, limits, originals)
    && |Accepted(u, Candidates(u, h, files, limits, originals))| == |originals|
    && |files| <= limits.maxFileCount
    && TotalSize(files, originals) <= limits.maxProjectSize
  }

  /** The two project-wide limits, both reported when both are broken. */
  function LimitProblems(limits: Limits, count: nat, total: nat): seq<Problem> {
    (if count > limits.maxFileCount then [Problem(None, TooManyFiles)] else [])
    + (if total > limits.maxProjectSize then [Problem(None, ProjectTooLarge)] else [])
  }

  /** The errors of a build: the walk's, then the conflicts, then the project-wide limits. */
  ghost predicate Reports(u: Unicode, h: Hashing, files: Files, limits: Limits, originals: seq<string>,
                          conflicts: seq<Problem>, errors: seq<Problem>)
    requires forall o :: o in originals ==> o in files
  {
    && NameConflicts(u, Candidates(u, h, files, limits, originals), conflicts)
    && errors == Faults(u, files, limits, originals) + conflicts
                 + LimitProblems(limits, |files|, TotalSize(files, originals))
  }

  /** The spellings of a source in the order the walk takes them. */
  ghost predicate Order(files: Files, originals: seq<string>) {
    StrictlySorted(originals) && (forall o :: o in originals <==> o in files) && |originals| == |files|
  }

  /** What a build of a source is: its accepted candidates in path order, and its errors in order. */
  ghost predicate IsBuild(u: Unicode, h: Hashing, files: Files, limits: Limits, originals: seq<string>,
                          conflicts: seq<Problem>, entries: seq<Entry>, errors: seq<Problem>) {
    && Order(files, originals)
    && Listing(entries, Accepted(u, Candidates(u, h, files, limits, originals)))
    && Reports(u, h, files, limits, originals, conflicts, errors)
  }

  /** build_manifest. */
  method BuildManifest(u: Unicode, h: Hashing, files: Files, limits: Limits)
    returns (entries: seq<Entry>, errors: seq<Problem>)
    ensures SortedEntries(entries) && |entries| <= |files|
    ensures exists originals, conflicts :: IsBuild(u, h, files, limits, originals, conflicts, entries, errors)
  {
    var names := Sorted(files.Keys);
    var candidates, problems := Walk(u, h, files, limits, names);
    CandidatesDescribe(u, h, files, limits, names);
    var accepted, clashes := RejectPathConflicts(u, candidates);
    AcceptedFrom(u, candidates);
    FaultsAccount(u, h, files, limits, names);
    entries := SortEntries(accepted);
    errors := problems + clashes;
    if |files| > limits.maxFileCount {
      errors := errors + [Problem(None, TooManyFiles)];
    }
    var total := TotalOf(files, names);
    if total > limits.maxProjectSize {
      errors := errors + [Problem(None, ProjectTooLarge)];
    }
    assert IsBuild(u, h, files, limits, names, clashes, entries, errors);
  }

  method TotalOf(files: Files, names: seq<string>) returns (total: nat)
    requires forall o :: o in names ==> o in files
    ensures total == TotalSize(files, names)
  {
    total := 0;
    for i := 0 to |names|
      invariant total == TotalSize(files, names[..i])
    {
      assert names[..i + 1][..i] == names[..i];
      total := total + |files[names[i]]|;
    }
    assert names[..|names|] == names;
  }

  /** A build reports nothing exactly for a clean tree, and then every file has its entry. */
  lemma {:induction false} SilentBuilds(u: Unicode, h: Hashing, files: Files, limits: Limits, originals: seq<string>,
                                        conflicts: seq<Problem>, entries: seq<Entry>, errors: seq<Problem>)
    requires IsBuild(u, h, files, limits, originals, conflicts, entries, errors)
    ensures errors == [] <==> Clean(u, h, files, limits, originals)
    ensures errors == [] ==> |entries| == |files|
  {
    FaultsAccount(u, h, files, limits, originals);
    SilentWalk(u, files, limits, originals);
    ConflictsAccount(u, Candidates(u, h, files, limits, originals), conflicts);
  }

  lemma {:induction false} AcceptedFrom(u: Unicode, entries: seq<Entry>)
    requires DistinctPaths(entries)
    ensures DistinctPaths(Accepted(u, entries)) && |Accepted(u, entries)| <= |entries|
    ensures forall e :: e in Accepted(u, entries) ==> e in entries
  {
    forall e { AcceptedMembers(u, entries, e); }
    WithoutDistinct(entries, BlockedPaths(PathsOf(entries)));
    WithoutDistinct(Unblocked(entries), CollidingPaths(u, PathsOf(Unblocked(entries))));
  }

  // ----- Trusting a stored manifest ------------------------------------------------------------------

  /** One field of a stored entry, as JSON hands it back. */
  datatype Field<+T> = Missing | Mistyped | Present(value: T)

  datatype StoredEntry = NotAnObject | Fields(path: Field<string>, size: Field<int>, sha256: Field<string>)

  datatype StoredManifest = NotAList | Listed(entries: seq<StoredEntry>)

  datatype Reason =
    | ManifestNotAList
    | MalformedEntry(index: nat)
    | MissingFields(index: nat)
    | MalformedPath(index: nat)
    | UnsafePath(error: PathError, path: string)
    | NonCanonicalPath(path: string)
    | DuplicateEntry(path: string)
    | MalformedSize(path: string)
    | MalformedChecksum(path: string)
    | StoredConflict(path: string)
    | StoredCaseConflict(path: string)
    | DigestMismatch

  /** The path an entry claims, when it is a canonical one. */
  function Claimed(u: Unicode, e: StoredEntry): Option<string> {
    if e.Fields? && e.path.Present? && !e.size.Missing? && !e.sha256.Missing?
       && Normalize(u, e.path.value) == Ok(e.path.value)
    then Some(e.path.value) else None
  }

  function ClaimOf(u: Unicode, e: StoredEntry): set<string> {
    if Claimed(u, e).Some? then {Claimed(u, e).value} else {}
  }

  predicate WellFormed(u: Unicode, e: StoredEntry) {
    && Claimed(u, e).Some?
    && e.size.Present? && e.size.value >= 0
    && e.sha256.Present? && IsHex64(e.sha256.value)
  }

  function Read(e: StoredEntry): Entry
    requires e.Fields? && e.path.Present? && e.size.Present? && e.size.value >= 0 && e.sha256.Present?
  {
    Entry(e.path.value, e.size.value, e.sha256.value)
  }

  function Store(e: Entry): StoredEntry { Fields(Present(e.path), Present(e.size), Present(e.sha256)) }

  function StoreAll(entries: seq<Entry>): StoredManifest {
    Listed(seq(|entries|, k requires 0 <= k < |entries| => Store(entries[k])))
  }

  function ClaimedPaths(u: Unicode, entries: seq<StoredEntry>): set<string> {
    set k | 0 <= k < |entries| && Claimed(u, entries[k]).Some? :: Claimed(u, entries[k]).value
  }

  /** Every entry is well formed and claims a path no earlier one claimed. */
  ghost predicate AllWellFormed(u: Unicode, entries: seq<StoredEntry>) {
    && (forall k :: 0 <= k < |entries| ==> WellFormed(u, entries[k]))
    && (forall i, k :: 0 <= i < k < |entries| ==> entries[i].path != entries[k].path)
  }

  /** No path stands above another, and no two nodes differ only in case. */
  ghost predicate Coexist(u: Unicode, paths: set<string>) {
    forall p :: p in paths ==> !Blocked(paths, p) && !Rejected(u, paths, p)
  }

  function ReadAll(u: Unicode, entries: seq<StoredEntry>): seq<Entry>
    requires forall k :: 0 <= k < |entries| ==> WellFormed(u, entries[k])
  {
    seq(|entries|, k requires 0 <= k < |entries| && WellFormed(u, entries[k]) => Read(entries[k]))
  }

  /** What a stored manifest must be before anything acts on it. */
  ghost predicate Trusted(u: Unicode, h: Hashing, m: StoredManifest, digest: Option<string>) {
    && m.Listed?
    && AllWellFormed(u, m.entries)
    && Coexist(u, ClaimedPaths(u, m.entries))
    && (digest.Some? ==> exists sorted :: Listing(sorted, ReadAll(u, m.entries)) && Address(h, sorted) == digest.value)
  }

  /** _validate_entry, for an entry that claims a canonical path. */
  method ValidateClaim(index: nat, e: StoredEntry, path: string, paths: set<string>) returns (reasons: seq<Reason>)
    requires e.Fields?
    ensures reasons == [] <==>
              path !in paths && e.size.Present? && e.size.value >= 0 && e.sha256.Present? && IsHex64(e.sha256.value)
    ensures DuplicateEntry(path) in reasons <==> path in paths
    ensures MalformedSize(path) in reasons <==> !(e.size.Present? && e.size.value >= 0)
    ensures MalformedChecksum(path) in reasons <==> !(e.sha256.Present? && IsHex64(e.sha256.value))
  {
    reasons := [];
    if path in paths {
      reasons := reasons + [DuplicateEntry(path)];
    }
    if !e.size.Present? || e.size.value < 0 {
      reasons := reasons + [MalformedSize(path)];
    }
    if !e.sha256.Present? || !IsHex64(e.sha256.value) {
      reasons := reasons + [MalformedChecksum(path)];
    }
  }

  /** _validate_entry. */
  method ValidateEntry(u: Unicode, index: nat, e: StoredEntry, paths: set<string>)
    returns (reasons: seq<Reason>, claimed: set<string>)
    ensures claimed == paths + ClaimOf(u, e)
    ensures reasons == [] <==> WellFormed(u, e) && Claimed(u, e).value !in paths
  {
    claimed := paths;
    if e.NotAnObject? {
      return [MalformedEntry(index)], claimed;
    }
    if e.path.Missing? || e.size.Missing? || e.sha256.Missing? {
      return [MissingFields(index)], claimed;
    }
    if e.path.Mistyped? {
      return [MalformedPath(index)], claimed;
    }
    var canonical := Normalize(u, e.path.value);
    if canonical.Err? {
      return [UnsafePath(canonical.error, e.path.value)], claimed;
    }
    if canonical.value != e.path.value {
      return [NonCanonicalPath(e.path.value)], claimed;
    }
    reasons := ValidateClaim(index, e, e.path.value, paths);
    claimed := claimed + {e.path.value};
  }

  method BlockedReasons(paths: set<string>, sorted: seq<string>) returns (conflicts: seq<Reason>)
    ensures forall p :: StoredConflict(p) in conflicts <==> p in sorted && Blocked(paths, p)
    ensures forall c :: c in conflicts ==> c.StoredConflict?
  {
    conflicts := [];
    for i := 0 to |sorted|
      invariant forall p :: StoredConflict(p) in conflicts <==> p in sorted[..i] && Blocked(paths, p)
      invariant forall c :: c in conflicts ==> c.StoredConflict?
    {
      var blocking := Blocking(paths, sorted[i]);
      if blocking.Some? {
        conflicts := conflicts + [StoredConflict(sorted[i])];
      }
    }
  }

  method CollidingReasons(u: Unicode, sorted: seq<string>) returns (conflicts: seq<Reason>)
    ensures forall p :: StoredCaseConflict(p) in conflicts <==> p in sorted && Rejected(u, Among(sorted), p)
    ensures forall c :: c in conflicts ==> c.StoredCaseConflict?
  {
    var collisions := CaseInsensitiveCollisions(u, sorted);
    var colliding := Sorted(collisions.Keys);
    conflicts := CaseConflicts(colliding);
    ConflictsListed(colliding);
    assert forall p :: p in colliding <==> p in collisions;
  }

  function CaseConflicts(paths: seq<string>): seq<Reason> {
    seq(|paths|, k requires 0 <= k < |paths| => StoredCaseConflict(paths[k]))
  }

  lemma {:induction false} ConflictsListed(paths: seq<string>)
    ensures forall p :: StoredCaseConflict(p) in CaseConflicts(paths) <==> p in paths
    ensures forall c :: c in CaseConflicts(paths) ==> c.StoredCaseConflict?
  {
    var conflicts := CaseConflicts(paths);
    forall p | p in paths ensures StoredCaseConflict(p) in conflicts {
      var k :| 0 <= k < |paths| && paths[k] == p;
      assert conflicts[k] == StoredCaseConflict(p);
    }
  }

  /** _conflicting_paths. */
  method ConflictingPaths(u: Unicode, paths: set<string>) returns (conflicts: seq<Reason>)
    ensures forall p :: StoredConflict(p) in conflicts <==> p in paths && Blocked(paths, p)
    ensures forall p :: StoredCaseConflict(p) in conflicts <==> p in paths && Rejected(u, paths, p)
    ensures conflicts == [] <==> Coexist(u, paths)
  {
    var sorted := Sorted(paths);
    assert Among(sorted) == paths;
    var blocked := BlockedReasons(paths, sorted);
    var colliding := CollidingReasons(u, sorted);
    conflicts := blocked + colliding;
    NoConflicts(u, paths, conflicts);
  }

  lemma {:induction false} NoConflicts(u: Unicode, paths: set<string>, conflicts: seq<Reason>)
    requires forall c :: c in conflicts ==> c.StoredConflict? || c.StoredCaseConflict?
    requires forall p :: StoredConflict(p) in conflicts <==> p in paths && Blocked(paths, p)
    requires forall p :: StoredCaseConflict(p) in conflicts <==> p in paths && Rejected(u, paths, p)
    ensures conflicts == [] <==> Coexist(u, paths)
  {
    if conflicts != [] {
      assert conflicts[0] in conflicts;
      assert conflicts[0] == StoredConflict(conflicts[0].path) || conflicts[0] == StoredCaseConflict(conflicts[0].path);
    }
  }

  /** compute_digest. */
  method ComputeDigest(h: Hashing, entries: seq<Entry>) returns (digest: string)
    requires DistinctPaths(entries)
    ensures exists sorted :: Listing(sorted, entries) && digest == Address(h, sorted)
  {
    var sorted := SortEntries(entries);
    digest := Address(h, sorted);
  }

  method ValidateEntries(u: Unicode, entries: seq<StoredEntry>) returns (reasons: seq<Reason>, paths: set<string>)
    ensures paths == ClaimedPaths(u, entries)
    ensures reasons == [] <==> AllWellFormed(u, entries)
  {
    reasons, paths := [], {};
    for i := 0 to |entries|
      invariant EntriesChecked(u, entries[..i], reasons, paths)
    {
      var found, claimed := ValidateEntry(u, i, entries[i], paths);
      EntriesCheckedNext(u, entries, i, reasons, paths, found, claimed);
      reasons, paths := reasons + found, claimed;
    }
    assert entries[..|entries|] == entries;
  }

  ghost predicate EntriesChecked(u: Unicode, entries: seq<StoredEntry>, reasons: seq<Reason>, paths: set<string>) {
    paths == ClaimedPaths(u, entries) && (reasons == [] <==> AllWellFormed(u, entries))
  }

  lemma {:induction false} EntriesCheckedNext(u: Unicode, entries: seq<StoredEntry>, i: nat, reasons: seq<Reason>,
                                              paths: set<string>, found: seq<Reason>, claimed: set<string>)
    requires i < |entries| && EntriesChecked(u, entries[..i], reasons, paths)
    requires claimed == paths + ClaimOf(u, entries[i])
    requires found == [] <==> WellFormed(u, entries[i]) && Claimed(u, entries[i]).value !in paths
    ensures EntriesChecked(u, entries[..i + 1], reasons + found, claimed)
  {
    WellFormedNext(u, entries, i);
  }

  lemma {:induction false} WellFormedNext(u: Unicode, entries: seq<StoredEntry>, i: nat)
    requires i < |entries|
    ensures ClaimedPaths(u, entries[..i + 1]) == ClaimedPaths(u, entries[..i]) + ClaimOf(u, entries[i])
    ensures AllWellFormed(u, entries[..i + 1]) <==>
              AllWellFormed(u, entries[..i]) && WellFormed(u, entries[i])
              && Claimed(u, entries[i]).value !in ClaimedPaths(u, entries[..i])
  {
    var before, after := entries[..i], entries[..i + 1];
    assert after == before + [entries[i]];
    assert forall k :: 0 <= k < i ==> after[k] == before[k];
    forall c | c in ClaimedPaths(u, before) ensures c in ClaimedPaths(u, after) {
      var k :| 0 <= k < i && Claimed(u, before[k]) == Some(c);
      assert after[k] == before[k];
    }
    assert after[i] == entries[i];
  }

  /** validate_manifest: the reasons it raises with, none exactly when the manifest can be trusted. */
  method ValidateManifest(u: Unicode, h: Hashing, m: StoredManifest, digest: Option<string>)
    returns (reasons: seq<Reason>)
    ensures reasons == [] <==> Trusted(u, h, m, digest)
  {
    if m.NotAList? {
      return [ManifestNotAList];
    }
    var faults, paths := ValidateEntries(u, m.entries);
    var conflicts := ConflictingPaths(u, paths);
    reasons := faults + conflicts;
    if digest.Some? && reasons == [] {
      var entries := ReadAll(u, m.entries);
      assert DistinctPaths(entries);
      var computed := ComputeDigest(h, entries);
      ListingIsUnique(h, entries, computed, digest.value);
      if computed != digest.value {
        reasons := reasons + [DigestMismatch];
      }
    }
  }

  lemma {:induction false} ListingIsUnique(h: Hashing, entries: seq<Entry>, computed: string, digest: string)
    requires exists sorted :: Listing(sorted, entries) && Address(h, sorted) == computed
    ensures computed == digest <==> exists sorted :: Listing(sorted, entries) && Address(h, sorted) == digest
  {
    var a :| Listing(a, entries) && Address(h, a) == computed;
    forall b | Listing(b, entries) ensures a == b {
      SortedEntriesUnique(a, b);
    }
  }

  lemma {:induction false} SortedEntriesUnique(a: seq<Entry>, b: seq<Entry>)
    requires SortedEntries(a) && SortedEntries(b) && forall e :: e in a <==> e in b
    ensures a == b
  {
    assert b != [] ==> b[0] in a;
    if a != [] {
      assert a[0] in b;
      if a[0] != b[0] {
        var i :| 0 <= i < |a| && a[i] == b[0];
        var j :| 0 <= j < |b| && b[j] == a[0];
        AtMostAntisymmetric(a[0].path, b[0].path);
      }
      forall e ensures e in a[1..] <==> e in b[1..] {
        if e in a[1..] { assert e in a && e != a[0]; assert e in b; }
        if e in b[1..] { assert e in b && e != b[0]; assert e in a; }
      }
      SortedEntriesUnique(a[1..], b[1..]);
      assert a == [a[0]] + a[1..] && b == [b[0]] + b[1..];
    }
  }

  // ----- The round trip through the database ---------------------------------------------------------

  lemma {:induction false} FewerPathsCollideLess(u: Unicode, fewer: set<string>, more: set<string>, p: string)
    requires fewer <= more
    ensures Blocked(fewer, p) ==> Blocked(more, p)
    ensures Rejected(u, fewer, p) ==> Rejected(u, more, p)
  {
    if Rejected(u, fewer, p) {
      var k :| 0 <= k < |Nodes(p)| && Collides(u, fewer, Nodes(p)[k]);
      var other :| other in NamesOf(u, fewer, Lower(u, Nodes(p)[k])) && other != Nodes(p)[k];
      assert other in NamesOf(u, more, Lower(u, Nodes(p)[k]));
      assert Collides(u, more, Nodes(p)[k]);
    }
  }

  lemma {:induction false} AcceptedCoexist(u: Unicode, entries: seq<Entry>)
    ensures Coexist(u, PathsOf(Accepted(u, entries)))
  {
    var paths := PathsOf(Accepted(u, entries));
    forall e ensures e in Accepted(u, entries) ==> e in entries && e in Unblocked(entries) {
      AcceptedMembers(u, entries, e);
      WithoutMembers(Unblocked(entries), CollidingPaths(u, PathsOf(Unblocked(entries))));
    }
    forall p | p in paths ensures !Blocked(paths, p) && !Rejected(u, paths, p) {
      var e :| e in Accepted(u, entries) && e.path == p;
      AcceptedMembers(u, entries, e);
      FewerPathsCollideLess(u, paths, PathsOf(entries), p);
      FewerPathsCollideLess(u, paths, PathsOf(Unblocked(entries)), p);
    }
  }

  /** What every manifest entry of a build looks like. */
  ghost predicate Built(u: Unicode, h: Hashing, files: Files, entries: seq<Entry>) {
    && SortedEntries(entries)
    && Coexist(u, PathsOf(entries))
    && (forall e :: e in entries ==> exists o :: Describes(u, h, files, e, o))
  }

  lemma {:induction false} BuildsAreBuilt(u: Unicode, h: Hashing, files: Files, limits: Limits, originals: seq<string>,
                                          entries: seq<Entry>)
    requires forall o :: o in originals ==> o in files
    requires Listing(entries, Accepted(u, Candidates(u, h, files, limits, originals)))
    ensures Built(u, h, files, entries)
  {
    var candidates := Candidates(u, h, files, limits, originals);
    CandidatesDescribe(u, h, files, limits, originals);
    AcceptedCoexist(u, candidates);
    assert PathsOf(entries) == PathsOf(Accepted(u, candidates));
    forall e | e in entries ensures exists o :: Describes(u, h, files, e, o) {
      AcceptedMembers(u, candidates, e);
    }
  }

  ghost predicate AllFixed(u: Unicode, entries: seq<Entry>) {
    forall e :: e in entries ==> !Edged(u, e.path) && !HasDrive(e.path)
  }

  lemma {:induction false} BuiltIsWellFormed(u: Unicode, h: Hashing, files: Files, entries: seq<Entry>, k: nat)
    requires Lawful(u) && Hexadecimal(h) && Built(u, h, files, entries) && k < |entries|
    ensures WellFormed(u, Store(entries[k])) <==> !Edged(u, entries[k].path) && !HasDrive(entries[k].path)
  {
    assert entries[k] in entries;
    var o :| Describes(u, h, files, entries[k], o);
    SecondPass(u, o, entries[k].path);
    assert IsHex64(Sha(h, files[o]));
  }

  /**
   A build's entries, stored and read back, are trusted under their digest exactly when no path
   begins or ends with whitespace or reads as drive-qualified: the fixed points of Normalize.
   */
  lemma {:induction false} BuildsAreTrusted(u: Unicode, h: Hashing, files: Files, entries: seq<Entry>)
    requires Lawful(u) && Hexadecimal(h) && Built(u, h, files, entries)
    ensures Trusted(u, h, StoreAll(entries), Some(Address(h, entries))) <==> AllFixed(u, entries)
  {
    var stored := StoreAll(entries).entries;
    forall k | 0 <= k < |entries| ensures WellFormed(u, stored[k])
                                          <==> !Edged(u, entries[k].path) && !HasDrive(entries[k].path) {
      BuiltIsWellFormed(u, h, files, entries, k);
    }
    if AllFixed(u, entries) {
      FixedIsTrusted(u, h, files, entries);
    } else {
      var e :| e in entries && (Edged(u, e.path) || HasDrive(e.path));
      var k :| 0 <= k < |entries| && entries[k] == e;
      assert !WellFormed(u, stored[k]);
    }
  }

  lemma {:induction false} FixedIsTrusted(u: Unicode, h: Hashing, files: Files, entries: seq<Entry>)
    requires Built(u, h, files, entries)
    requires forall k :: 0 <= k < |entries| ==> WellFormed(u, StoreAll(entries).entries[k])
    ensures Trusted(u, h, StoreAll(entries), Some(Address(h, entries)))
  {
    var stored := StoreAll(entries).entries;
    assert ReadAll(u, stored) == entries;
    assert Listing(entries, entries);
    assert ClaimedPaths(u, stored) == PathsOf(entries) by {
      forall p | p in PathsOf(entries) ensures p in ClaimedPaths(u, stored) {
        var e :| e in entries && e.path == p;
        var k :| 0 <= k < |entries| && entries[k] == e;
        assert Claimed(u, stored[k]) == Some(p);
      }
    }
  }
}
