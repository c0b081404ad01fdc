/** Writing, verifying, reading and deleting a revision's files on a storage backend (storage/store.py). */
module Store {
  import opened Prelude
  import opened Segments
  import opened SourcePaths
  import opened Manifest

  const HASH_CHUNK := 1024 * 1024

  datatype Fault = NotFound | Outage

  // ----- The backend -------------------------------------------------------------------------------

  /** An open file. A read yields any nonempty part of what was asked for, and may fail. */
  class Handle {
    const stream: Bytes
    const reliable: bool
    var position: nat

    ghost predicate Valid()
      reads this
    {
      position <= |stream|
    }

    constructor (stream: Bytes, reliable: bool)
      ensures Valid() && this.stream == stream && this.reliable == reliable && position == 0
    {
      this.stream, this.reliable, position := stream, reliable, 0;
    }

    method Read(n: nat) returns (r: Result<Bytes, Fault>)
      requires Valid() && n > 0
      modifies this
      ensures Valid() && position >= old(position)
      ensures r.Ok? ==> |r.value| <= n && r.value == stream[old(position)..position]
      ensures r.Ok? && r.value == [] ==> position == |stream|
      ensures r.Err? ==> !reliable && position == old(position) && r.error == Outage
    {
      var up: bool := *;
      if !up && !reliable {
        return Err(Outage);
      }
      var most := if n < |stream| - position then n else |stream| - position;
      var count: int := *;
      if count <= 0 || count > most {
        count := most;
      }
      r := Ok(stream[position..position + count]);
      position := position + count;
    }
  }

  /** Where verified bytes are copied to. */
  class Sink {
    var written: Bytes

    constructor ()
      ensures written == []
    {
      written := [];
    }

    method Write(chunk: Bytes)
      modifies this
      ensures written == old(written) + chunk
    {
      written := written + chunk;
    }
  }

  type Objects = map<string, Bytes>

  /** Everything outside some keys is as it was; new keys may have appeared. */
  ghost predicate Untouched(before: Objects, after: Objects, keys: set<string>) {
    forall k :: k in before && k !in keys ==> k in after && after[k] == before[k]
  }

  /** Nothing but the named keys appeared. */
  ghost predicate NoStrays(before: Objects, after: Objects, keys: set<string>) {
    after.Keys <= before.Keys + keys
  }

  /**
   A storage backend. Any call of an unreliable one may fail, and it may misreport sizes; any
   backend may decline to report one. Unless this writer is alone, another may take a key just
   before a save, and the save then lands under an invented name.
   */
  class Backend {
    const reliable: bool
    const alone: bool
    var objects: Objects

    constructor (reliable: bool, alone: bool, objects: Objects)
      ensures this.reliable == reliable && this.alone == alone && this.objects == objects
    {
      this.reliable, this.alone, this.objects := reliable, alone, objects;
    }

    method Exists(key: string) returns (r: Result<bool, Fault>)
      ensures r.Ok? ==> r.value == (key in objects)
      ensures reliable ==> r.Ok?
    {
      var up: bool := *;
      return if up || reliable then Ok(key in objects) else Err(Outage);
    }

    method Size(key: string) returns (r: Result<Option<nat>, Fault>)
      ensures reliable ==> (r == Err(NotFound) && key !in objects) || r == Ok(None)
                           || (key in objects && r == Ok(Some(|objects[key]|)))
    {
      var guess: Result<Option<nat>, Fault> := *;
      if !reliable || guess == Ok(None) {
        return guess;
      }
      return if key in objects then Ok(Some(|objects[key]|)) else Err(NotFound);
    }

    method Open(key: string) returns (r: Result<Handle, Fault>)
      ensures r.Ok? ==> fresh(r.value) && r.value.Valid() && r.value.position == 0 && r.value.reliable == reliable
      ensures r.Ok? ==> key in objects && r.value.stream == objects[key]
      ensures r.Err? && r.error == NotFound ==> key !in objects
      ensures reliable ==> r.Ok? || r.error == NotFound
    {
      var up: bool := *;
      if !up && !reliable {
        return Err(Outage);
      }
      if key !in objects {
        return Err(NotFound);
      }
      var handle := new Handle(objects[key], reliable);
      return Ok(handle);
    }

    method Save(key: string, content: Bytes) returns (r: Result<string, Fault>)
      requires key !in objects
      modifies this
      ensures Untouched(old(objects), objects, {})
      ensures r.Ok? && r.value == key ==> objects == old(objects)[key := content]
      ensures r.Ok? && r.value != key ==> r.value !in old(objects) && r.value in objects && key in objects
      ensures r.Ok? ==> NoStrays(old(objects), objects, {key, r.value})
      ensures r.Err? ==> NoStrays(old(objects), objects, {key})
      ensures alone && r.Ok? ==> r.value == key
      ensures reliable && alone ==> r == Ok(key)
    {
      var raced: bool := *;
      if raced && !alone {
        var rival: Bytes := *;
        objects := objects[key := rival];
      }
      var up: bool := *;
      if !up && !reliable {
        var torn: bool := *;
        if torn && key !in objects {
          var partial: Bytes := *;
          objects := objects[key := partial];
        }
        return Err(Outage);
      }
      if key !in objects {
        objects := objects[key := content];
        return Ok(key);
      }
      var name: string := *;
      if name in objects {
        return Err(Outage);
      }
      objects := objects[name := content];
      return Ok(name);
    }

    method Delete(key: string) returns (r: Result<(), Fault>)
      modifies this
      ensures r.Ok? ==> objects == old(objects) - {key}
      ensures r.Err? ==> objects == old(objects)
      ensures r.Err? && r.error == NotFound ==> key !in objects
      ensures reliable ==> r.Ok? || r.error == NotFound
    {
      var up: bool := *;
      if !up && !reliable {
        return Err(Outage);
      }
      var strict: bool := *;
      if strict && key !in objects {
        return Err(NotFound);
      }
      objects := objects - {key};
      return Ok(());
    }
  }

  // ----- Keys ----------------------------------------------------------------------------------------

  /** revision_prefix, for a storage key already in canonical UUID form. */
  function RevisionPrefix(storageKey: string, digest: string): Option<string> {
    if IsHex64(digest) then Some("netbox-scripts/" + storageKey + "/revisions/" + digest + "/") else None
  }

  /** revision_key. */
  function RevisionKey(u: Unicode, storageKey: string, digest: string, path: string): Option<string> {
    if RevisionPrefix(storageKey, digest).None? || Normalize(u, path).Err? then None
    else Some(RevisionPrefix(storageKey, digest).value + Normalize(u, path).value)
  }

  /** What a key is made of: the plugin's name, the project, the revision's digest, and the canonical path. */
  lemma {:induction false} KeySegments(u: Unicode, storageKey: string, digest: string, path: string)
    requires Plain(storageKey) && RevisionKey(u, storageKey, digest, path).Some?
    ensures IsHex64(digest) && Normalize(u, path).Ok?
    ensures Split(RevisionKey(u, storageKey, digest, path).value)
         == ["netbox-scripts", storageKey, "revisions", digest] + Split(Normalize(u, path).value)
  {
    PrefixSegments(storageKey, digest, Normalize(u, path).value);
  }

  /** A key can be built exactly from a well-formed digest and an acceptable path. */
  lemma {:induction false} KeyBuildable(u: Unicode, storageKey: string, digest: string, path: string)
    ensures RevisionKey(u, storageKey, digest, path).Some? <==>
              |digest| == 64 && (forall c :: c in digest ==> c in "0123456789abcdef") && Normalize(u, path).Ok?
  {
    Hex64Exactly(digest);
  }

  /** One key names one file of one revision of one project, however the caller spelled the path. */
  lemma {:induction false} KeysNameOneObject(u: Unicode, storageKey: string, digest: string, path: string,
                                             otherKey: string, otherDigest: string, other: string)
    requires Plain(storageKey) && Plain(otherKey)
    requires RevisionKey(u, storageKey, digest, path).Some? && RevisionKey(u, otherKey, otherDigest, other).Some?
    ensures RevisionKey(u, storageKey, digest, path) == RevisionKey(u, otherKey, otherDigest, other)
            <==> storageKey == otherKey && digest == otherDigest && Normalize(u, path) == Normalize(u, other)
  {
    KeySegments(u, storageKey, digest, path);
    KeySegments(u, otherKey, otherDigest, other);
    if RevisionKey(u, storageKey, digest, path) == RevisionKey(u, otherKey, otherDigest, other) {
      var parts := Split(RevisionKey(u, storageKey, digest, path).value);
      assert parts[1] == storageKey == otherKey && parts[3] == digest == otherDigest;
      assert parts[4..] == Split(Normalize(u, path).value) == Split(Normalize(u, other).value);
      JoinSplit(Normalize(u, path).value);
      JoinSplit(Normalize(u, other).value);
    }
  }

  /** The text a revision's keys begin with: nothing under one revision's is under another's. */
  lemma {:induction false} PrefixesAreApart(storageKey: string, digest: string, a: string, otherKey: string,
                                            otherDigest: string, b: string)
    requires Plain(storageKey) && Plain(otherKey) && IsHex64(digest) && IsHex64(otherDigest)
    requires RevisionPrefix(storageKey, digest).value + a == RevisionPrefix(otherKey, otherDigest).value + b
    ensures storageKey == otherKey && digest == otherDigest
  {
    PrefixSegments(storageKey, digest, a);
    PrefixSegments(otherKey, otherDigest, b);
    var parts := Split(RevisionPrefix(storageKey, digest).value + a);
    assert parts[1] == storageKey && parts[3] == digest;
  }

  lemma {:induction false} TwoThenRest(a: string, b: string, rest: string)
    requires Plain(a) && Plain(b)
    ensures Split(a + "/" + (b + "/" + rest)) == [a, b] + Split(rest)
  {
    SplitAfter(a, b + "/" + rest);
    SplitAfter(b, rest);
  }

  lemma {:induction false} FourThenRest(a: string, b: string, c: string, d: string, rest: string)
    requires Plain(a) && Plain(b) && Plain(c) && Plain(d)
    ensures Split(a + "/" + (b + "/" + (c + "/" + (d + "/" + rest)))) == [a, b, c, d] + Split(rest)
  {
    var tail := c + "/" + (d + "/" + rest);
    TwoThenRest(c, d, rest);
    TwoThenRest(a, b, tail);
  }

  lemma {:induction false} Regroup(first: string, a: string, middle: string, b: string, slash: string, rest: string)
    ensures first + a + middle + b + slash + rest == first + (a + (middle + (b + slash + rest)))
  {
  }

  lemma {:induction false} Slashes()
    ensures "netbox-scripts/" == "netbox-scripts" + "/" && "/revisions/" == "/" + ("revisions" + "/")
    ensures Plain("netbox-scripts") && Plain("revisions")
  {
  }

  lemma {:induction false} Spelled(a: string, b: string, c: string, tail: string)
    ensures a + "/" + (b + ("/" + (c + "/") + tail)) == a + "/" + (b + "/" + (c + "/" + tail))
  {
  }

  lemma {:induction false} PrefixSegments(storageKey: string, digest: string, rest: string)
    requires Plain(storageKey) && IsHex64(digest)
    ensures Split(RevisionPrefix(storageKey, digest).value + rest)
         == ["netbox-scripts", storageKey, "revisions", digest] + Split(rest)
  {
    assert Plain(digest) by {
      assert forall c :: c in digest ==> c != '/';
    }
    Slashes();
    Regroup("netbox-scripts/", storageKey, "/revisions/", digest, "/", rest);
    Spelled("netbox-scripts", storageKey, "revisions", digest + "/" + rest);
    FourThenRest("netbox-scripts", storageKey, "revisions", digest, rest);
  }

  function KeysOf(prefix: string, entries: seq<Entry>): set<string> {
    set e | e in entries :: prefix + e.path
  }

  lemma {:induction false} KeysAreDistinct(prefix: string, a: string, b: string)
    requires prefix + a == prefix + b
    ensures a == b
  {
    assert (prefix + a)[|prefix|..] == a && (prefix + b)[|prefix|..] == b;
  }

  // ----- Bounded verified reads ------------------------------------------------------------------------

  datatype Damage =
    | PrefixMissing
    | MissingFile(path: string)
    | SizeMismatch(path: string)
    | ChecksumMismatch(path: string)

  datatype Failure =
    | Untrusted(reasons: seq<Reason>)
    | EscapesRoot
    | Unsafe(path: string)
    | Corrupt(damage: seq<Damage>)
    | Unavailable

  /** What a read bounded by an expected size sees of a stream: at most one byte more. */
  function Bounded(stream: Bytes, expected: nat): Bytes {
    if |stream| <= expected + 1 then stream else stream[..expected + 1]
  }

  predicate Matches(h: Hashing, e: Entry, content: Bytes) {
    |content| == e.size && Sha(h, content) == e.sha256
  }

  /**
   Whatever a stream holds, the bounded read accepts it exactly when the whole of it is the recorded
   content, unless what the read saw collides with that content.
   */
  lemma {:induction false} BoundedReadIsExact(h: Hashing, path: string, recorded: Bytes, stream: Bytes)
    requires Distinguishes(h, Bounded(stream, |recorded|), recorded)
    ensures Matches(h, EntryFor(h, path, recorded), Bounded(stream, |recorded|)) <==> stream == recorded
    ensures |Bounded(stream, |recorded|)| <= |recorded| + 1
  {
  }

  lemma {:induction false} BoundedMatches(h: Hashing, e: Entry, stream: Bytes)
    requires e.size >= 0
    ensures Matches(h, e, Bounded(stream, e.size)) <==> Matches(h, e, stream)
  {
  }

  /** _measure. */
  method Measure(h: Hashing, handle: Handle, expected: nat, sink: Sink?) returns (r: Result<(nat, string), Fault>)
    requires handle.Valid() && handle.position == 0
    modifies handle, sink
    ensures handle.position <= expected + 1
    ensures r.Ok? ==> r.value == (|Bounded(handle.stream, expected)|, Sha(h, Bounded(handle.stream, expected)))
    ensures r.Ok? && sink != null ==> sink.written == old(sink.written) + Bounded(handle.stream, expected)
    ensures r.Err? ==> !handle.reliable && r.error == Outage
  {
    var size, hashed: Bytes, remaining := 0, [], expected + 1;
    while remaining > 0
      invariant handle.Valid() && handle.position == size == |hashed| && remaining == expected + 1 - size >= 0
      invariant hashed == handle.stream[..size]
      invariant sink != null ==> sink.written == old(sink.written) + hashed
      decreases remaining
    {
      var chunk := handle.Read(if HASH_CHUNK < remaining then HASH_CHUNK else remaining);
      if chunk.Err? {
        return Err(chunk.error);
      }
      if chunk.value == [] {
        break;
      }
      size, remaining := size + |chunk.value|, remaining - |chunk.value|;
      hashed := hashed + chunk.value;
      if sink != null {
        sink.Write(chunk.value);
      }
    }
    assert hashed == Bounded(handle.stream, expected);
    return Ok((size, Sha(h, hashed)));
  }

  /** What is wrong with one stored file. */
  function DamageOf(h: Hashing, objects: Objects, key: string, e: Entry): Option<Damage> {
    if key !in objects then Some(MissingFile(e.path))
    else if |objects[key]| != e.size then Some(SizeMismatch(e.path))
    else if Sha(h, objects[key]) != e.sha256 then Some(ChecksumMismatch(e.path))
    else None
  }

  predicate Intact(h: Hashing, objects: Objects, key: string, e: Entry) {
    key in objects && Matches(h, e, objects[key])
  }

  /** _stream_verified. */
  method StreamVerified(h: Hashing, storage: Backend, key: string, e: Entry, sink: Sink?)
    returns (r: Result<(), Failure>)
    requires e.size >= 0
    modifies sink
    ensures r.Ok? ==> Intact(h, storage.objects, key, e)
    ensures r.Ok? && sink != null ==> sink.written == old(sink.written) + storage.objects[key]
    ensures r.Err? ==> r.error == Unavailable || (r.error.Corrupt? && |r.error.damage| == 1)
    ensures storage.reliable ==> r == match DamageOf(h, storage.objects, key, e)
                                      case Some(damage) => Err(Corrupt([damage]))
                                      case None => Ok(())
  {
    var reported := storage.Size(key);
    if reported.Err? {
      return Err(if reported.error == NotFound then Corrupt([MissingFile(e.path)]) else Unavailable);
    }
    if reported.value.Some? && reported.value.value != e.size {
      return Err(Corrupt([SizeMismatch(e.path)]));
    }
    var handle := storage.Open(key);
    if handle.Err? {
      return Err(if handle.error == NotFound then Corrupt([MissingFile(e.path)]) else Unavailable);
    }
    var measured := Measure(h, handle.value, e.size, sink);
    if measured.Err? {
      return Err(Unavailable);
    }
    BoundedMatches(h, e, storage.objects[key]);
    if measured.value.0 != e.size {
      return Err(Corrupt([SizeMismatch(e.path)]));
    }
    if measured.value.1 != e.sha256 {
      return Err(Corrupt([ChecksumMismatch(e.path)]));
    }
    return Ok(());
  }

  /** read_verified. */
  method ReadVerified(h: Hashing, storage: Backend, key: string, e: Entry) returns (r: Result<Bytes, Failure>)
    requires e.size >= 0
    ensures r.Ok? ==> Intact(h, storage.objects, key, e) && r.value == storage.objects[key]
    ensures storage.reliable ==> (r.Ok? <==> Intact(h, storage.objects, key, e))
  {
    var sink := new Sink();
    var streamed := StreamVerified(h, storage, key, e, sink);
    if streamed.Err? {
      return Err(streamed.error);
    }
    return Ok(sink.written);
  }

  // ----- Verifying a tree --------------------------------------------------------------------------------

  ghost predicate AllIntact(h: Hashing, objects: Objects, prefix: string, entries: seq<Entry>) {
    forall e :: e in entries ==> Intact(h, objects, prefix + e.path, e)
  }

  /** The damage of a tree, entry by entry. */
  function Damages(h: Hashing, objects: Objects, prefix: string, entries: seq<Entry>): seq<Damage> {
    if entries == [] then []
    else
      var n := |entries| - 1;
      var damage := DamageOf(h, objects, prefix + entries[n].path, entries[n]);
      Damages(h, objects, prefix, entries[..n]) + if damage.Some? then [damage.value] else []
  }

  lemma {:induction false} DamagesCount(h: Hashing, objects: Objects, prefix: string, entries: seq<Entry>)
    ensures |Damages(h, objects, prefix, entries)| <= |entries|
    ensures Damages(h, objects, prefix, entries) == [] <==> AllIntact(h, objects, prefix, entries)
  {
    if entries != [] {
      var n := |entries| - 1;
      DamagesCount(h, objects, prefix, entries[..n]);
      assert entries == entries[..n] + [entries[n]];
      assert entries[n] in entries;
    }
  }

  predicate AllMissing(damages: seq<Damage>) { forall d :: d in damages ==> d.MissingFile? }

  lemma {:induction false} DamagesMissing(h: Hashing, objects: Objects, prefix: string, entries: seq<Entry>)
    ensures |Damages(h, objects, prefix, entries)| == |entries| && AllMissing(Damages(h, objects, prefix, entries))
       <==> forall e :: e in entries ==> prefix + e.path !in objects
  {
    if entries != [] {
      var n := |entries| - 1;
      var before := Damages(h, objects, prefix, entries[..n]);
      var damages := Damages(h, objects, prefix, entries);
      DamagesMissing(h, objects, prefix, entries[..n]);
      DamagesCount(h, objects, prefix, entries[..n]);
      assert entries == entries[..n] + [entries[n]];
      assert entries[n] in entries;
      if |damages| == |entries| && AllMissing(damages) {
        assert damages[n] in damages;
        assert forall d :: d in before ==> d in damages;
      }
    }
  }

  function Verdict(damages: seq<Damage>, count: nat): Result<(), Failure> {
    if count > 0 && |damages| == count && AllMissing(damages) then Err(Corrupt([PrefixMissing]))
    else if damages != [] then Err(Corrupt(damages))
    else Ok(())
  }

  /** The damages name exactly the damaged files, each for what is wrong with it. */
  lemma {:induction false} DamagesExactly(h: Hashing, objects: Objects, prefix: string, entries: seq<Entry>,
                                          path: string)
    ensures var damages, key := Damages(h, objects, prefix, entries), prefix + path;
      && (MissingFile(path) in damages <==> key !in objects && exists e :: e in entries && e.path == path)
      && (SizeMismatch(path) in damages <==>
            key in objects && exists e :: e in entries && e.path == path && |objects[key]| != e.size)
      && (ChecksumMismatch(path) in damages <==>
            key in objects && exists e :: e in entries && e.path == path && |objects[key]| == e.size
                                          && Sha(h, objects[key]) != e.sha256)
      && PrefixMissing !in damages
  {
    if entries != [] {
      var n := |entries| - 1;
      DamagesExactly(h, objects, prefix, entries[..n], path);
      assert entries == entries[..n] + [entries[n]];
      DamageLast(h, objects, prefix, entries);
    }
  }

  lemma {:induction false} DamageLast(h: Hashing, objects: Objects, prefix: string, entries: seq<Entry>)
    requires entries != []
    ensures var n := |entries| - 1;
      var last := DamageOf(h, objects, prefix + entries[n].path, entries[n]);
      forall d :: d in Damages(h, objects, prefix, entries) <==>
        d in Damages(h, objects, prefix, entries[..n]) || last == Some(d)
  {
  }

  /** A tree passes exactly when every file is intact, and is called missing exactly when none is there. */
  lemma {:induction false} VerdictMeans(h: Hashing, objects: Objects, prefix: string, entries: seq<Entry>)
    ensures var verdict := Verdict(Damages(h, objects, prefix, entries), |entries|);
      && (verdict.Ok? <==> AllIntact(h, objects, prefix, entries))
      && (verdict == Err(Corrupt([PrefixMissing]))
          <==> entries != [] && forall e :: e in entries ==> prefix + e.path !in objects)
  {
    DamagesCount(h, objects, prefix, entries);
    DamagesMissing(h, objects, prefix, entries);
    NeverPrefixMissing(h, objects, prefix, entries);
  }

  lemma {:induction false} NeverPrefixMissing(h: Hashing, objects: Objects, prefix: string, entries: seq<Entry>)
    ensures PrefixMissing !in Damages(h, objects, prefix, entries)
  {
    if entries != [] {
      NeverPrefixMissing(h, objects, prefix, entries[..|entries| - 1]);
    }
  }

  /** _verify_tree, for entries in path order. */
  method VerifyTree(h: Hashing, storage: Backend, prefix: string, entries: seq<Entry>) returns (r: Result<(), Failure>)
    requires DistinctPaths(entries) && forall e :: e in entries ==> e.size >= 0
    ensures r.Ok? ==> AllIntact(h, storage.objects, prefix, entries)
    ensures storage.reliable ==>
              exists sorted :: Listing(sorted, entries)
                && r == Verdict(Damages(h, storage.objects, prefix, sorted), |entries|)
  {
    var sorted := SortEntries(entries);
    var damages: seq<Damage> := [];
    for i := 0 to |sorted|
      invariant damages == [] ==> AllIntact(h, storage.objects, prefix, sorted[..i])
      invariant storage.reliable ==> damages == Damages(h, storage.objects, prefix, sorted[..i])
    {
      assert sorted[i] in sorted;
      assert sorted[..i + 1][..i] == sorted[..i];
      var verified := StreamVerified(h, storage, prefix + sorted[i].path, sorted[i], null);
      if verified.Err? && verified.error.Unavailable? {
        return Err(Unavailable);
      }
      if verified.Err? {
        damages := damages + verified.error.damage;
      }
      assert forall e :: e in sorted[..i + 1] <==> e in sorted[..i] || e == sorted[i];
    }
    assert sorted[..|sorted|] == sorted;
    return Verdict(damages, |entries|);
  }

  // ----- Writing -----------------------------------------------------------------------------------------

  /** A source keyed by canonical path: every file once, under its own canonical path. */
  ghost predicate Canonicalizes(u: Unicode, files: Files, source: Files) {
    && (forall o :: o in files ==> Places(u, files, source, o))
    && (forall c :: c in source ==> exists o :: o in files && Normalize(u, o) == Ok(c))
  }

  ghost predicate Places(u: Unicode, files: Files, source: Files, o: string)
    requires o in files
  {
    var canonical := Normalize(u, o);
    canonical.Ok? && canonical.value in source && source[canonical.value] == files[o]
  }

  /** Every path is acceptable and no two resolve to one. */
  ghost predicate Sourced(u: Unicode, files: Files) {
    && (forall o :: o in files ==> Normalize(u, o).Ok?)
    && (forall a, b :: a in files && b in files && Normalize(u, a) == Normalize(u, b) ==> a == b)
  }

  ghost predicate CanonicalSoFar(u: Unicode, files: Files, left: set<string>, source: Files) {
    && left <= files.Keys
    && (forall o :: o in files && o !in left ==> Places(u, files, source, o))
    && (forall c :: c in source ==> exists o :: o in files && o !in left && Normalize(u, o) == Ok(c))
    && (forall a, b :: a in files.Keys - left && b in files.Keys - left && Normalize(u, a) == Normalize(u, b) ==>
          a == b)
  }

  lemma {:induction false} CanonicalStep(u: Unicode, files: Files, left: set<string>, source: Files, o: string)
    requires CanonicalSoFar(u, files, left, source) && o in left
    requires Normalize(u, o).Ok? && Normalize(u, o).value !in source
    ensures CanonicalSoFar(u, files, left - {o}, source[Normalize(u, o).value := files[o]])
  {
    var canonical := Normalize(u, o).value;
    var more := source[canonical := files[o]];
    forall p | p in files && p !in left - {o} ensures Places(u, files, more, p) {
      if p != o { assert Places(u, files, source, p); }
    }
    forall c | c in more ensures exists p :: p in files && p !in left - {o} && Normalize(u, p) == Ok(c) {
      if c == canonical {
        assert Normalize(u, o) == Ok(c);
      } else {
        var p :| p in files && p !in left && Normalize(u, p) == Ok(c);
      }
    }
    forall a | a in files.Keys - left ensures Normalize(u, a) != Normalize(u, o) {
      assert Places(u, files, source, a);
    }
  }

  lemma {:induction false} CanonicalDone(u: Unicode, files: Files, source: Files)
    requires CanonicalSoFar(u, files, {}, source)
    ensures Canonicalizes(u, files, source) && Sourced(u, files)
  {
    forall o | o in files ensures Normalize(u, o).Ok? {
      assert Places(u, files, source, o);
    }
    assert files.Keys - {} == files.Keys;
  }

  lemma {:induction false} CanonicalClash(u: Unicode, files: Files, left: set<string>, source: Files, o: string)
    requires CanonicalSoFar(u, files, left, source) && o in left
    requires Normalize(u, o).Err? || Normalize(u, o).value in source
    ensures !Sourced(u, files)
  {
    if Normalize(u, o).Ok? {
      var p :| p in files && p !in left && Normalize(u, p) == Ok(Normalize(u, o).value);
      assert p != o && Normalize(u, p) == Normalize(u, o);
    }
  }

  /** _canonical_source. */
  method CanonicalSource(u: Unicode, files: Files) returns (r: Result<Files, Failure>)
    ensures r.Ok? <==> Sourced(u, files)
    ensures r.Ok? ==> Canonicalizes(u, files, r.value)
    ensures r.Err? ==> r.error.Unsafe?
  {
    var source: Files := map[];
    var left := files.Keys;
    while left != {}
      invariant CanonicalSoFar(u, files, left, source)
      decreases |left|
    {
      var o :| o in left;
      var canonical := Normalize(u, o);
      if canonical.Err? || canonical.value in source {
        CanonicalClash(u, files, left, source, o);
        return Err(Unsafe(o));
      }
      CanonicalStep(u, files, left, source, o);
      source, left := source[canonical.value := files[o]], left - {o};
    }
    CanonicalDone(u, files, source);
    return Ok(source);
  }

  /** _write_one. */
  method WriteOne(h: Hashing, storage: Backend, key: string, content: Bytes, e: Entry) returns (r: Result<(), Failure>)
    requires e.size >= 0
    modifies storage
    ensures Untouched(old(storage.objects), storage.objects, {key})
    ensures storage.reliable ==> NoStrays(old(storage.objects), storage.objects, {key})
    ensures r.Ok? ==> key in storage.objects && (storage.objects[key] == content || Intact(h, storage.objects, key, e))
    ensures old(Intact(h, storage.objects, key, e)) ==> storage.objects == old(storage.objects) || !storage.reliable
    ensures storage.alone && r.Ok? ==> storage.objects in {old(storage.objects), old(storage.objects)[key := content]}
    ensures storage.reliable && storage.alone ==> r.Ok?
    ensures r.Err? ==> r.error == Unavailable
  {
    var occupied := storage.Exists(key);
    if occupied.Err? {
      return Err(Unavailable);
    }
    if occupied.value {
      var verified := StreamVerified(h, storage, key, e, null);
      if verified.Ok? {
        return Ok(());
      }
      if verified.error.Unavailable? {
        return Err(Unavailable);
      }
      var deleted := storage.Delete(key);
      if deleted.Err? {
        return Err(Unavailable);
      }
    }
    ghost var cleared := storage.objects;
    r := SaveOne(h, storage, key, content, e);
    assert cleared[key := content] == old(storage.objects)[key := content];
  }

  /** The save of _write_one, at a key seen to be free, and what follows a renamed one. */
  method SaveOne(h: Hashing, storage: Backend, key: string, content: Bytes, e: Entry) returns (r: Result<(), Failure>)
    requires e.size >= 0 && key !in storage.objects
    modifies storage
    ensures Untouched(old(storage.objects), storage.objects, {})
    ensures storage.reliable ==> NoStrays(old(storage.objects), storage.objects, {key})
    ensures r.Ok? ==> key in storage.objects && (storage.objects[key] == content || Intact(h, storage.objects, key, e))
    ensures storage.alone && r.Ok? ==> storage.objects == old(storage.objects)[key := content]
    ensures storage.reliable && storage.alone ==> r.Ok?
    ensures r.Err? ==> r.error == Unavailable
  {
    var stored := storage.Save(key, content);
    if stored.Err? {
      return Err(Unavailable);
    }
    if stored.value != key {
      var removed := storage.Delete(stored.value);
      var verified := StreamVerified(h, storage, key, e, null);
      if verified.Err? {
        return Err(Unavailable);
      }
    }
    return Ok(());
  }

  /** The source holds every entry's recorded content. */
  ghost predicate Supplies(h: Hashing, source: Files, entries: seq<Entry>) {
    forall e :: e in entries ==> e.path in source && Matches(h, e, source[e.path])
  }

  /** The files hold every entry's recorded content under its canonical path. */
  ghost predicate Holds(u: Unicode, h: Hashing, files: Files, entries: seq<Entry>) {
    Sourced(u, files) && forall source :: Canonicalizes(u, files, source) ==> Supplies(h, source, entries)
  }

  /** Every object is one that was there, or holds one of some contents. */
  ghost predicate OnlyFrom(before: Objects, after: Objects, contents: set<Bytes>) {
    forall k :: k in after ==> (k in before && after[k] == before[k]) || after[k] in contents
  }

  lemma {:induction false} SourceIsFromFiles(u: Unicode, files: Files, source: Files)
    requires Canonicalizes(u, files, source)
    ensures source.Values <= files.Values
  {
    forall c | c in source ensures source[c] in files.Values {
      var o :| o in files && Normalize(u, o) == Ok(c);
      assert Places(u, files, source, o);
    }
  }

  lemma {:induction false} WriteKeeps(h: Hashing, before: Objects, after: Objects, prefix: string, entries: seq<Entry>,
                                      i: nat)
    requires i < |entries| && DistinctPaths(entries)
    requires AllIntact(h, before, prefix, entries[..i])
    requires Untouched(before, after, {prefix + entries[i].path})
    requires Intact(h, after, prefix + entries[i].path, entries[i])
    ensures AllIntact(h, after, prefix, entries[..i + 1])
  {
    forall e | e in entries[..i + 1] ensures Intact(h, after, prefix + e.path, e) {
      var k :| 0 <= k < i + 1 && entries[k] == e;
      if k < i {
        assert entries[k] in entries[..i];
        if prefix + e.path == prefix + entries[i].path {
          KeysAreDistinct(prefix, e.path, entries[i].path);
          assert false;
        }
      }
    }
  }

  method WriteAll(h: Hashing, storage: Backend, prefix: string, entries: seq<Entry>, source: Files)
    returns (r: Result<(), Failure>)
    requires DistinctPaths(entries) && forall e :: e in entries ==> e.size >= 0
    modifies storage
    ensures Untouched(old(storage.objects), storage.objects, KeysOf(prefix, entries))
    ensures storage.reliable ==> NoStrays(old(storage.objects), storage.objects, KeysOf(prefix, entries))
    ensures storage.alone && r.Ok? ==> OnlyFrom(old(storage.objects), storage.objects, source.Values)
    ensures storage.reliable && storage.alone && Supplies(h, source, entries) ==>
              r.Ok? && AllIntact(h, storage.objects, prefix, entries)
  {
    for i := 0 to |entries|
      invariant Untouched(old(storage.objects), storage.objects, KeysOf(prefix, entries))
      invariant storage.reliable ==> NoStrays(old(storage.objects), storage.objects, KeysOf(prefix, entries))
      invariant storage.alone ==> OnlyFrom(old(storage.objects), storage.objects, source.Values)
      invariant storage.reliable && storage.alone && Supplies(h, source, entries) ==>
                  AllIntact(h, storage.objects, prefix, entries[..i])
    {
      var e := entries[i];
      assert e in entries && prefix + e.path in KeysOf(prefix, entries);
      if e.path !in source {
        return Err(Unavailable);
      }
      ghost var before := storage.objects;
      assert source[e.path] in source.Values;
      var written := WriteOne(h, storage, prefix + e.path, source[e.path], e);
      if written.Err? {
        return written;
      }
      if storage.reliable && storage.alone && Supplies(h, source, entries) {
        WriteKeeps(h, before, storage.objects, prefix, entries, i);
      }
    }
    assert entries[..|entries|] == entries;
    return Ok(());
  }

  /** Another revision's digest, or another project's storage key. */
  predicate OtherRevision(storageKey: string, digest: string, k: string, d: string) {
    Plain(k) && IsHex64(d) && (k != storageKey || d != digest)
  }

  predicate SameAt(before: Objects, after: Objects, key: string) {
    key in before ==> key in after && after[key] == before[key]
  }

  /** Nothing stored under any other revision moved. */
  ghost predicate OthersStand(before: Objects, after: Objects, storageKey: string, digest: string) {
    forall k, d, a :: OtherRevision(storageKey, digest, k, d) ==> SameAt(before, after, RevisionPrefix(k, d).value + a)
  }

  lemma {:induction false} OthersUntouched(before: Objects, after: Objects, storageKey: string, digest: string,
                                           keys: set<string>)
    requires Plain(storageKey) && IsHex64(digest) && Untouched(before, after, keys)
    requires forall key :: key in keys ==> exists a :: key == RevisionPrefix(storageKey, digest).value + a
    ensures OthersStand(before, after, storageKey, digest)
  {
    forall k, d, b | OtherRevision(storageKey, digest, k, d)
      ensures SameAt(before, after, RevisionPrefix(k, d).value + b)
    {
      var key := RevisionPrefix(k, d).value + b;
      if key in keys {
        var a :| key == RevisionPrefix(storageKey, digest).value + a;
        PrefixesAreApart(storageKey, digest, a, k, d, b);
      }
    }
  }

  lemma {:induction false} NothingMoved(objects: Objects, storageKey: string, digest: string)
    ensures OthersStand(objects, objects, storageKey, digest)
  {
  }

  /** What was stored intact for any other revision still is. */
  lemma {:induction false} OthersStayIntact(h: Hashing, before: Objects, after: Objects, storageKey: string,
                                            digest: string, k: string, d: string, entries: seq<Entry>)
    requires OthersStand(before, after, storageKey, digest) && OtherRevision(storageKey, digest, k, d)
    requires AllIntact(h, before, RevisionPrefix(k, d).value, entries)
    ensures AllIntact(h, after, RevisionPrefix(k, d).value, entries)
  {
    forall e | e in entries ensures Intact(h, after, RevisionPrefix(k, d).value + e.path, e) {
      assert SameAt(before, after, RevisionPrefix(k, d).value + e.path);
    }
  }

  /** The keys a stored manifest names under its digest. */
  ghost function ManifestKeys(u: Unicode, storageKey: string, digest: string, m: StoredManifest): set<string>
    requires m.Listed? && IsHex64(digest) && forall k :: 0 <= k < |m.entries| ==> WellFormed(u, m.entries[k])
  {
    KeysOf(RevisionPrefix(storageKey, digest).value, ReadAll(u, m.entries))
  }

  lemma {:induction false} TrustedEntries(u: Unicode, h: Hashing, m: StoredManifest, digest: string)
    requires Trusted(u, h, m, Some(digest))
    ensures DistinctPaths(ReadAll(u, m.entries))
    ensures forall e :: e in ReadAll(u, m.entries) ==> e.size >= 0 && Normalize(u, e.path) == Ok(e.path)
    ensures Hexadecimal(h) ==> IsHex64(digest)
  {
  }

  /**
   write_revision. A manifest that cannot be trusted stops it before anything is touched; a
   success means every recorded byte is in place; and from any prior contents of the keys it
   succeeds whenever the backend works and the source holds what the manifest records.
   */
  method WriteRevision(u: Unicode, h: Hashing, storage: Backend, storageKey: string, digest: string, files: Files,
                       m: StoredManifest)
    returns (r: Result<string, Failure>)
    requires Hexadecimal(h)
    modifies storage
    ensures !Trusted(u, h, m, Some(digest)) ==> r.Err? && r.error.Untrusted? && storage.objects == old(storage.objects)
    ensures Trusted(u, h, m, Some(digest)) ==>
              IsHex64(digest) && Untouched(old(storage.objects), storage.objects,
                                           ManifestKeys(u, storageKey, digest, m))
    ensures Trusted(u, h, m, Some(digest)) && storage.reliable ==>
              IsHex64(digest) && NoStrays(old(storage.objects), storage.objects, ManifestKeys(u, storageKey, digest, m))
    ensures r.Ok? ==> Trusted(u, h, m, Some(digest)) && RevisionPrefix(storageKey, digest) == Some(r.value)
                      && AllIntact(h, storage.objects, r.value, ReadAll(u, m.entries))
    ensures r.Ok? && storage.alone ==> OnlyFrom(old(storage.objects), storage.objects, files.Values)
    ensures Plain(storageKey) ==> OthersStand(old(storage.objects), storage.objects, storageKey, digest)
    ensures Trusted(u, h, m, Some(digest)) ==>
              (storage.reliable && storage.alone && Holds(u, h, files, ReadAll(u, m.entries)) ==> r.Ok?)
  {
    var reasons := ValidateManifest(u, h, m, Some(digest));
    NothingMoved(storage.objects, storageKey, digest);
    if reasons != [] {
      return Err(Untrusted(reasons));
    }
    var prefix := RevisionPrefix(storageKey, digest);
    var entries := ReadAll(u, m.entries);
    TrustedEntries(u, h, m, digest);
    var source := CanonicalSource(u, files);
    if source.Err? {
      return Err(source.error);
    }
    var written := WriteAll(h, storage, prefix.value, entries, source.value);
    if Plain(storageKey) {
      OthersUntouched(old(storage.objects), storage.objects, storageKey, digest, KeysOf(prefix.value, entries));
    }
    if written.Err? {
      return Err(written.error);
    }
    SourceIsFromFiles(u, files, source.value);
    var verified := VerifyTree(h, storage, prefix.value, entries);
    if storage.reliable {
      VerifiedVerdict(h, storage.objects, prefix.value, entries, verified);
    }
    return if verified.Err? then Err(verified.error) else Ok(prefix.value);
  }

  lemma {:induction false} VerifiedVerdict(h: Hashing, objects: Objects, prefix: string, entries: seq<Entry>,
                                           r: Result<(), Failure>)
    requires exists sorted :: Listing(sorted, entries) && r == Verdict(Damages(h, objects, prefix, sorted), |entries|)
    ensures r.Ok? <==> AllIntact(h, objects, prefix, entries)
    ensures r == Err(Corrupt([PrefixMissing])) <==>
              entries != [] && forall e :: e in entries ==> prefix + e.path !in objects
  {
    var sorted :| Listing(sorted, entries) && r == Verdict(Damages(h, objects, prefix, sorted), |entries|);
    VerdictMeans(h, objects, prefix, sorted);
    assert entries != [] ==> entries[0] in sorted;
    assert sorted != [] ==> sorted[0] in entries;
  }

  /** verify_revision_tree. */
  method VerifyRevisionTree(u: Unicode, h: Hashing, storage: Backend, storageKey: string, digest: string,
                            m: StoredManifest)
    returns (r: Result<string, Failure>)
    requires Hexadecimal(h)
    ensures r.Ok? ==> Trusted(u, h, m, Some(digest)) && RevisionPrefix(storageKey, digest) == Some(r.value)
                      && AllIntact(h, storage.objects, r.value, ReadAll(u, m.entries))
    ensures storage.reliable && Trusted(u, h, m, Some(digest)) ==>
              IsHex64(digest) && var prefix := RevisionPrefix(storageKey, digest).value;
              && (r.Ok? <==> AllIntact(h, storage.objects, prefix, ReadAll(u, m.entries)))
              && (r == Err(Corrupt([PrefixMissing]))
                  <==> m.entries != [] && ManifestKeys(u, storageKey, digest, m) !! storage.objects.Keys)
  {
    var reasons := ValidateManifest(u, h, m, Some(digest));
    if reasons != [] {
      return Err(Untrusted(reasons));
    }
    var prefix := RevisionPrefix(storageKey, digest).value;
    var entries := ReadAll(u, m.entries);
    TrustedEntries(u, h, m, digest);
    var verified := VerifyTree(h, storage, prefix, entries);
    if storage.reliable {
      VerifiedVerdict(h, storage.objects, prefix, entries, verified);
      assert forall e :: e in entries ==> prefix + e.path in KeysOf(prefix, entries);
    }
    return if verified.Err? then Err(verified.error) else Ok(prefix);
  }

  /** A tree read back: one verified file for each entry. */
  ghost predicate ReadBack(h: Hashing, objects: Objects, prefix: string, entries: seq<Entry>, tree: Files) {
    && tree.Keys == PathsOf(entries)
    && (forall e :: e in entries ==> Intact(h, objects, prefix + e.path, e)
                                     && e.path in tree && tree[e.path] == objects[prefix + e.path])
  }

  lemma {:induction false} ReadNext(h: Hashing, objects: Objects, prefix: string, entries: seq<Entry>, i: nat,
                                    tree: Files)
    requires i < |entries| && DistinctPaths(entries) && ReadBack(h, objects, prefix, entries[..i], tree)
    requires Intact(h, objects, prefix + entries[i].path, entries[i])
    ensures ReadBack(h, objects, prefix, entries[..i + 1],
                     tree[entries[i].path := objects[prefix + entries[i].path]])
  {
    assert entries[..i + 1] == entries[..i] + [entries[i]];
    forall e | e in entries[..i] ensures e.path != entries[i].path {
      var k :| 0 <= k < i && entries[k] == e;
    }
  }

  method ReadTree(h: Hashing, storage: Backend, prefix: string, entries: seq<Entry>) returns (r: Result<Files, Failure>)
    requires DistinctPaths(entries) && forall e :: e in entries ==> e.size >= 0
    ensures r.Ok? ==> ReadBack(h, storage.objects, prefix, entries, r.value)
    ensures storage.reliable ==> (r.Ok? <==> AllIntact(h, storage.objects, prefix, entries))
  {
    var tree: Files := map[];
    for i := 0 to |entries|
      invariant ReadBack(h, storage.objects, prefix, entries[..i], tree)
    {
      assert entries[i] in entries;
      var content := ReadVerified(h, storage, prefix + entries[i].path, entries[i]);
      if content.Err? {
        return Err(content.error);
      }
      ReadNext(h, storage.objects, prefix, entries, i, tree);
      tree := tree[entries[i].path := content.value];
    }
    assert entries[..|entries|] == entries;
    return Ok(tree);
  }

  /** read_revision_tree: it returns the recorded tree, and does whenever that is what is stored. */
  method ReadRevisionTree(u: Unicode, h: Hashing, storage: Backend, storageKey: string, digest: string,
                          m: StoredManifest)
    returns (r: Result<Files, Failure>)
    requires Hexadecimal(h)
    ensures r.Ok? ==> Trusted(u, h, m, Some(digest)) && IsHex64(digest)
                      && ReadBack(h, storage.objects, RevisionPrefix(storageKey, digest).value, ReadAll(u, m.entries),
                                  r.value)
    ensures storage.reliable ==>
              (r.Ok? <==> Trusted(u, h, m, Some(digest)) && IsHex64(digest)
                          && AllIntact(h, storage.objects, RevisionPrefix(storageKey, digest).value,
                                       ReadAll(u, m.entries)))
  {
    var reasons := ValidateManifest(u, h, m, Some(digest));
    if reasons != [] {
      return Err(Untrusted(reasons));
    }
    TrustedEntries(u, h, m, digest);
    r := ReadTree(h, storage, RevisionPrefix(storageKey, digest).value, ReadAll(u, m.entries));
  }

  // ----- Deleting ------------------------------------------------------------------------------------------

  /** The keys some paths name, where a key can be built at all. */
  function KeysFor(u: Unicode, storageKey: string, digest: string, paths: set<string>): set<string> {
    set p | p in paths && RevisionKey(u, storageKey, digest, p).Some? :: RevisionKey(u, storageKey, digest, p).value
  }

  /** What a delete did: a path it does not report has no key left, and nothing else changed. */
  ghost predicate Removed(u: Unicode, storageKey: string, digest: string, paths: set<string>, failures: seq<string>,
                          before: Objects, after: Objects) {
    && (forall p :: p in paths && p !in failures ==> Gone(u, storageKey, digest, after, p))
    && (forall k :: k in after ==> k in before && after[k] == before[k])
    && Untouched(before, after, KeysFor(u, storageKey, digest, paths))
    && (forall p :: p in failures ==> p in paths)
  }

  ghost predicate Gone(u: Unicode, storageKey: string, digest: string, objects: Objects, path: string) {
    var key := RevisionKey(u, storageKey, digest, path);
    key.Some? && key.value !in objects
  }

  ghost predicate Unbuildable(u: Unicode, storageKey: string, digest: string, paths: set<string>,
                              failures: seq<string>)
  {
    forall p :: p in failures <==> p in paths && RevisionKey(u, storageKey, digest, p).None?
  }

  /**
   delete_revision: exact keys only, each tried whatever happened to the others. On a working
   backend the failures are exactly the paths no key can be built from.
   */
  method DeleteRevision(u: Unicode, storage: Backend, storageKey: string, digest: string, paths: set<string>)
    returns (failures: seq<string>)
    modifies storage
    ensures Removed(u, storageKey, digest, paths, failures, old(storage.objects), storage.objects)
    ensures storage.reliable ==> Unbuildable(u, storageKey, digest, paths, failures)
    ensures Plain(storageKey) ==> OthersStand(old(storage.objects), storage.objects, storageKey, digest)
  {
    var sorted := Sorted(paths);
    failures := [];
    for i := 0 to |sorted|
      invariant Removed(u, storageKey, digest, Among(sorted[..i]), failures, old(storage.objects), storage.objects)
      invariant storage.reliable ==> Unbuildable(u, storageKey, digest, Among(sorted[..i]), failures)
    {
      assert Among(sorted[..i + 1]) == Among(sorted[..i]) + {sorted[i]};
      var key := RevisionKey(u, storageKey, digest, sorted[i]);
      if key.None? {
        failures := failures + [sorted[i]];
        continue;
      }
      var deleted := storage.Delete(key.value);
      if deleted.Err? && deleted.error != NotFound {
        failures := failures + [sorted[i]];
      }
    }
    assert Among(sorted[..|sorted|]) == paths;
    if Plain(storageKey) {
      DeletionSpares(u, old(storage.objects), storage.objects, storageKey, digest, paths);
    }
  }

  lemma {:induction false} DeletionSpares(u: Unicode, before: Objects, after: Objects, storageKey: string,
                                          digest: string, paths: set<string>)
    requires Plain(storageKey) && Untouched(before, after, KeysFor(u, storageKey, digest, paths))
    ensures OthersStand(before, after, storageKey, digest)
  {
    if IsHex64(digest) {
      OthersUntouched(before, after, storageKey, digest, KeysFor(u, storageKey, digest, paths));
    } else {
      assert KeysFor(u, storageKey, digest, paths) == {};
    }
  }

  /** present_keys. */
  method PresentKeys(u: Unicode, storage: Backend, storageKey: string, digest: string, paths: set<string>)
    returns (r: Result<seq<string>, Failure>)
    ensures r.Ok? ==> StrictlySorted(r.value) && forall p :: p in r.value <==>
                        p in paths && RevisionKey(u, storageKey, digest, p).Some?
                        && RevisionKey(u, storageKey, digest, p).value in storage.objects
    ensures storage.reliable ==> (r.Ok? <==> forall p :: p in paths ==> RevisionKey(u, storageKey, digest, p).Some?)
  {
    var sorted := Sorted(paths);
    var present: seq<string> := [];
    for i := 0 to |sorted|
      invariant Occupied(u, storage.objects, storageKey, digest, sorted[..i], present)
    {
      var key := RevisionKey(u, storageKey, digest, sorted[i]);
      if key.None? {
        return Err(Unsafe(sorted[i]));
      }
      var occupied := storage.Exists(key.value);
      if occupied.Err? {
        return Err(Unavailable);
      }
      OccupiedNext(u, storage.objects, storageKey, digest, sorted, i, present);
      if occupied.value {
        present := present + [sorted[i]];
      }
    }
    assert sorted[..|sorted|] == sorted;
    return Ok(present);
  }

  /** The paths seen so far whose key holds an object, in order. */
  ghost predicate Occupied(u: Unicode, objects: Objects, storageKey: string, digest: string, seen: seq<string>,
                           present: seq<string>)
  {
    && StrictlySorted(present)
    && (forall p :: p in seen ==> RevisionKey(u, storageKey, digest, p).Some?)
    && (forall p :: p in present <==> p in seen && RevisionKey(u, storageKey, digest, p).value in objects)
  }

  lemma {:induction false} OccupiedNext(u: Unicode, objects: Objects, storageKey: string, digest: string,
                                        sorted: seq<string>, i: nat, present: seq<string>)
    requires i < |sorted| && StrictlySorted(sorted) && RevisionKey(u, storageKey, digest, sorted[i]).Some?
    requires Occupied(u, objects, storageKey, digest, sorted[..i], present)
    ensures Occupied(u, objects, storageKey, digest, sorted[..i + 1],
                     if RevisionKey(u, storageKey, digest, sorted[i]).value in objects then present + [sorted[i]]
                     else present)
  {
    var before := sorted[..i];
    assert sorted[..i + 1] == before + [sorted[i]];
    forall k | 0 <= k < |present| ensures Before(present[k], sorted[i]) {
      assert present[k] in before;
      var n :| 0 <= n < |before| && before[n] == present[k];
      assert before[n] == sorted[n];
    }
  }

  // ----- The full round trip ---------------------------------------------------------------------------------

  lemma {:induction false} SubsetOfSameSize(a: set<string>, b: set<string>)
    requires a <= b && |a| >= |b|
    ensures a == b
  {
    assert b == a + (b - a);
    assert |b| == |a| + |b - a|;
  }

  lemma {:induction false} ManyPaths(entries: seq<Entry>)
    requires DistinctPaths(entries)
    ensures |PathsOf(entries)| == |entries|
  {
    if entries != [] {
      var n := |entries| - 1;
      ManyPaths(entries[..n]);
      assert entries == entries[..n] + [entries[n]];
      assert PathsOf(entries) == PathsOf(entries[..n]) + {entries[n].path};
    }
  }

  lemma {:induction false} SizesAgree(u: Unicode, files: Files, source: Files)
    requires Canonicalizes(u, files, source)
    ensures |source.Keys| <= |files.Keys|
  {
    ImageIsSmaller(u, files.Keys, source.Keys);
  }

  lemma {:induction false} ImageIsSmaller(u: Unicode, from: set<string>, image: set<string>)
    requires forall c :: c in image ==> exists o :: o in from && Normalize(u, o) == Ok(c)
    ensures |image| <= |from|
  {
    if image != {} {
      var c :| c in image;
      var o :| o in from && Normalize(u, o) == Ok(c);
      forall d | d in image - {c} ensures exists p :: p in from - {o} && Normalize(u, p) == Ok(d) {
        var p :| p in from && Normalize(u, p) == Ok(d);
      }
      ImageIsSmaller(u, from - {o}, image - {c});
    }
  }

  /** Every walk position is reached by its spelling, so a clean walk places each file once. */
  lemma {:induction false} CleanIsSourced(u: Unicode, files: Files, limits: Limits, originals: seq<string>)
    requires (forall o :: o in originals <==> o in files) && AllAdd(u, files, limits, originals)
    ensures Sourced(u, files)
  {
    forall o | o in files ensures Normalize(u, o).Ok? {
      var k :| 0 <= k < |originals| && originals[k] == o;
      assert Adds(u, files, limits, originals[..k], originals[k]);
    }
    forall a, b | a in files && b in files && Normalize(u, a) == Normalize(u, b) ensures a == b {
      var i :| 0 <= i < |originals| && originals[i] == a;
      var k :| 0 <= k < |originals| && originals[k] == b;
      if i < k {
        LaterAdds(u, files, limits, originals, i, k);
      } else if k < i {
        LaterAdds(u, files, limits, originals, k, i);
      }
    }
  }

  lemma {:induction false} LaterAdds(u: Unicode, files: Files, limits: Limits, originals: seq<string>, i: nat, k: nat)
    requires (forall o :: o in originals ==> o in files) && AllAdd(u, files, limits, originals)
    requires i < k < |originals| && Normalize(u, originals[i]).Ok?
    ensures Normalize(u, originals[k]) != Normalize(u, originals[i])
  {
    assert Adds(u, files, limits, originals[..k], originals[k]);
    assert originals[..k][i] == originals[i];
    assert Normalize(u, originals[i]).value in Seen(u, originals[..k]);
  }

  lemma {:induction false} BuildHolds(u: Unicode, h: Hashing, files: Files, entries: seq<Entry>)
    requires Built(u, h, files, entries) && Sourced(u, files)
    ensures Holds(u, h, files, entries)
  {
    forall source | Canonicalizes(u, files, source) ensures Supplies(h, source, entries) {
      forall e | e in entries ensures e.path in source && Matches(h, e, source[e.path]) {
        var o :| Describes(u, h, files, e, o);
        assert Places(u, files, source, o);
      }
    }
  }

  lemma {:induction false} BuildNamesAll(u: Unicode, h: Hashing, files: Files, entries: seq<Entry>, source: Files)
    requires Built(u, h, files, entries) && |entries| == |files| && Canonicalizes(u, files, source)
    ensures PathsOf(entries) == source.Keys
  {
    forall e | e in entries ensures e.path in source.Keys {
      var o :| Describes(u, h, files, e, o);
      assert Places(u, files, source, o);
    }
    ManyPaths(entries);
    SizesAgree(u, files, source);
    SubsetOfSameSize(PathsOf(entries), source.Keys);
  }

  lemma {:induction false} IntactIsRecorded(u: Unicode, h: Hashing, files: Files, source: Files, objects: Objects,
                                            key: string, e: Entry, o: string)
    requires Describes(u, h, files, e, o) && Canonicalizes(u, files, source)
    requires Intact(h, objects, key, e) && Distinguishes(h, objects[key], files[o])
    ensures e.path in source && source[e.path] == objects[key]
  {
    assert Places(u, files, source, o);
  }

  /** Everything a round trip compares: the files' contents and the stored ones. */
  function Contents(files: Files, objects: Objects): set<Bytes> { files.Values + objects.Values }

  lemma {:induction false} EntryIsSource(u: Unicode, h: Hashing, files: Files, entries: seq<Entry>, source: Files,
                                         objects: Objects, prefix: string, tree: Files, e: Entry)
    requires Built(u, h, files, entries) && e in entries && NoCollisions(h, files.Values, Contents(files, objects))
    requires Canonicalizes(u, files, source) && ReadBack(h, objects, prefix, entries, tree)
    ensures e.path in tree && e.path in source && tree[e.path] == source[e.path]
  {
    var o :| Describes(u, h, files, e, o);
    assert objects[prefix + e.path] in objects.Values && files[o] in files.Values;
    IntactIsRecorded(u, h, files, source, objects, prefix + e.path, e, o);
  }

  /** A tree read back under a complete build's entries is the canonical source itself. */
  lemma {:induction false} ReadIsSource(u: Unicode, h: Hashing, files: Files, entries: seq<Entry>, source: Files,
                                        objects: Objects, prefix: string, tree: Files)
    requires Built(u, h, files, entries) && |entries| == |files|
             && NoCollisions(h, files.Values, Contents(files, objects))
    requires Canonicalizes(u, files, source) && ReadBack(h, objects, prefix, entries, tree)
    ensures tree == source
  {
    BuildNamesAll(u, h, files, entries, source);
    forall e | e in entries ensures e.path in tree && e.path in source && tree[e.path] == source[e.path] {
      EntryIsSource(u, h, files, entries, source, objects, prefix, tree, e);
    }
    SameTree(entries, tree, source);
  }

  lemma {:induction false} SameTree(entries: seq<Entry>, a: Files, b: Files)
    requires a.Keys == PathsOf(entries) == b.Keys
    requires forall e :: e in entries ==> e.path in a && e.path in b && a[e.path] == b[e.path]
    ensures a == b
  {
    forall c | c in a ensures a[c] == b[c] {
      var k :| 0 <= k < |entries| && entries[k].path == c;
      assert entries[k] in entries;
    }
  }

  /** Writing only the files' own contents brings in nothing new to tell apart. */
  lemma {:induction false} WritingAddsNoCollision(h: Hashing, files: Files, before: Objects, after: Objects)
    requires NoCollisions(h, files.Values, Contents(files, before)) && OnlyFrom(before, after, files.Values)
    ensures NoCollisions(h, files.Values, Contents(files, after))
  {
    forall b | b in after.Values ensures b in Contents(files, before) {
      var k :| k in after && after[k] == b;
    }
  }

  /** What staging some files and reading them back yields. */
  ghost predicate RoundTrips(u: Unicode, files: Files, r: Result<Files, Failure>) {
    r.Ok? && Canonicalizes(u, files, r.value)
  }

  /**
   The full round trip, for contents that do not collide. On a working backend, a build without
   errors whose paths are fixed points is written over whatever its keys held and read back as
   exactly the canonical source, and no other key changes. With one path that is not a fixed point,
     nothing is written or read at all.
   */
  method BuildWriteRead(u: Unicode, h: Hashing, storage: Backend, storageKey: string, files: Files, limits: Limits)
    returns (entries: seq<Entry>, errors: seq<Problem>, r: Result<Files, Failure>)
    requires Lawful(u) && Hexadecimal(h) && NoCollisions(h, files.Values, Contents(files, storage.objects))
    requires storage.reliable && storage.alone
    modifies storage
    ensures errors == [] && AllFixed(u, entries) ==> RoundTrips(u, files, r)
    ensures errors == [] && !AllFixed(u, entries) ==> r.Err? && storage.objects == old(storage.objects)
    ensures var keys := KeysOf(RevisionPrefix(storageKey, Address(h, entries)).value, entries);
      Untouched(old(storage.objects), storage.objects, keys) && NoStrays(old(storage.objects), storage.objects, keys)
  {
    entries, errors := BuildManifest(u, h, files, limits);
    ghost var originals, conflicts :| IsBuild(u, h, files, limits, originals, conflicts, entries, errors);
    assert IsHex64(Address(h, entries));
    if errors != [] {
      return entries, errors, Err(Unavailable);
    }
    SilentBuilds(u, h, files, limits, originals, conflicts, entries, errors);
    CleanIsSourced(u, files, limits, originals);
    BuildsAreBuilt(u, h, files, limits, originals, entries);
    BuildsAreTrusted(u, h, files, entries);
    BuildHolds(u, h, files, entries);
    r := WriteThenRead(u, h, storage, storageKey, files, entries);
  }

  method WriteThenRead(u: Unicode, h: Hashing, storage: Backend, storageKey: string, files: Files, entries: seq<Entry>)
    returns (r: Result<Files, Failure>)
    requires Hexadecimal(h) && NoCollisions(h, files.Values, Contents(files, storage.objects))
    requires storage.reliable && storage.alone
    requires Built(u, h, files, entries) && |entries| == |files| && Holds(u, h, files, entries)
    requires Trusted(u, h, StoreAll(entries), Some(Address(h, entries))) <==> AllFixed(u, entries)
    modifies storage
    ensures AllFixed(u, entries) ==> RoundTrips(u, files, r)
    ensures !AllFixed(u, entries) ==> r.Err? && storage.objects == old(storage.objects)
    ensures var keys := KeysOf(RevisionPrefix(storageKey, Address(h, entries)).value, entries);
      Untouched(old(storage.objects), storage.objects, keys) && NoStrays(old(storage.objects), storage.objects, keys)
  {
    var m, digest := StoreAll(entries), Address(h, entries);
    assert IsHex64(digest);
    if AllFixed(u, entries) {
      assert ReadAll(u, m.entries) == entries;
    }
    var written := WriteRevision(u, h, storage, storageKey, digest, files, m);
    if written.Err? {
      return Err(written.error);
    }
    r := ReadRevisionTree(u, h, storage, storageKey, digest, m);
    var source := CanonicalSource(u, files);
    WritingAddsNoCollision(h, files, old(storage.objects), storage.objects);
    ReadIsSource(u, h, files, entries, source.value, storage.objects, written.value, r.value);
  }
}