/** Canonical source paths and their case-insensitive collisions (storage/paths.py). */
module SourcePaths {
  import opened Prelude
  import opened Segments

  /** The Unicode functions the policy is built on: NFC, str.lower and str.isspace. */
  datatype Unicode = Unicode(nfc: string -> string, lower: string -> string, space: char -> bool)

  function Nfc(u: Unicode, s: string): string { (u.nfc)(s) }

  function Lower(u: Unicode, s: string): string { (u.lower)(s) }

  predicate Space(u: Unicode, c: char) { (u.space)(c) }

  /**
   What is assumed of them. NFC is idempotent and fixes ASCII, and neither function sees across
   a '/': a text is in NFC when each segment is, and lowering a path lowers its segments.
   */
  ghost predicate Lawful(u: Unicode) {
    && (forall s :: Normalizes(u, s))
    && (forall s :: LowersBySegments(u, s))
    && Space(u, ' ')
  }

  ghost predicate Normalizes(u: Unicode, s: string) {
    && Nfc(u, Nfc(u, s)) == Nfc(u, s)
    && (Nfc(u, s) == s <==> forall k :: 0 <= k < |Split(s)| ==> Nfc(u, Split(s)[k]) == Split(s)[k])
    && (Ascii(s) ==> Nfc(u, s) == s)
  }

  ghost predicate LowersBySegments(u: Unicode, s: string) {
    && |Split(Lower(u, s))| == |Split(s)|
    && (forall k :: 0 <= k < |Split(s)| ==> Split(Lower(u, s))[k] == Lower(u, Split(s)[k]))
  }

  ghost predicate Ascii(s: string) { forall c :: c in s ==> c < 128 as char }

  /** The rejection codes. */
  datatype PathError = PathTraversal | AbsolutePath | CompiledArtifact | ComponentTooLong | PathTooLong | PathTooDeep

  const MAX_PATH_COMPONENT_BYTES := 255
  const MAX_PATH_BYTES := 768
  const MAX_PATH_DEPTH := 64

  /** len(s.encode('utf-8')). */
  function Utf8Length(s: string): nat {
    if s == "" then 0
    else (if s[0] < 0x80 as char then 1
          else if s[0] < 0x800 as char then 2
          else if s[0] < 0x10000 as char then 3 else 4)
         + Utf8Length(s[1..])
  }

  /** s != s.strip(). */
  predicate Edged(u: Unicode, s: string) { s != "" && (Space(u, s[0]) || Space(u, s[|s| - 1])) }

  predicate HasControl(s: string) { exists c :: c in s && (c < 32 as char || c == 127 as char) }

  /** PureWindowsPath(s).drive, for a text with neither a backslash nor a leading '/'. */
  predicate HasDrive(s: string) { |s| >= 2 && s[1] == ':' }

  predicate EndsWith(s: string, suffix: string) { |suffix| <= |s| && s[|s| - |suffix|..] == suffix }

  /** The segments a path keeps: empty and '.' ones fall away. */
  function Kept(parts: seq<string>): seq<string> {
    if parts == [] then []
    else if parts[0] == "" || parts[0] == "." then Kept(parts[1..])
    else [parts[0]] + Kept(parts[1..])
  }

  predicate Compiled(u: Unicode, parts: seq<string>)
    requires parts != []
  {
    || EndsWith(Lower(u, parts[|parts| - 1]), ".pyc")
    || EndsWith(Lower(u, parts[|parts| - 1]), ".pyo")
    || exists k :: 0 <= k < |parts| && Lower(u, parts[k]) == "__pycache__"
  }

  /** The checks on the kept segments, in order. */
  function CheckedSegments(u: Unicode, parts: seq<string>): Result<string, PathError> {
    if ".." in parts then Err(PathTraversal)
    else if parts == [] then Err(PathTraversal)
    else if Compiled(u, parts) then Err(CompiledArtifact)
    else if exists k :: 0 <= k < |parts| && Utf8Length(parts[k]) > MAX_PATH_COMPONENT_BYTES then Err(ComponentTooLong)
    else if Utf8Length(Join(parts)) > MAX_PATH_BYTES then Err(PathTooLong)
    else if |parts| > MAX_PATH_DEPTH then Err(PathTooDeep)
    else Ok(Join(parts))
  }

  /** normalize_source_path. */
  function Normalize(u: Unicode, path: string): Result<string, PathError> {
    var n := Nfc(u, path);
    if Edged(u, n) then Err(PathTraversal)
    else if '\\' in n then Err(PathTraversal)
    else if HasControl(n) then Err(PathTraversal)
    else if n != "" && n[0] == '/' then Err(AbsolutePath)
    else if HasDrive(n) then Err(AbsolutePath)
    else if n != "" && n[|n| - 1] == '/' then Err(PathTraversal)
    else CheckedSegments(u, Kept(Split(n)))
  }

  // ----- Which paths are accepted ---------------------------------------------------------------------

  /** No whitespace at either edge, no backslash and no control character. */
  ghost predicate CleanText(u: Unicode, n: string) {
    && (n != "" ==> !Space(u, n[0]) && !Space(u, n[|n| - 1]))
    && forall k :: 0 <= k < |n| ==> n[k] != '\\' && 32 <= n[k] as int != 127
  }

  /** It begins with '/', or its second character is ':'. */
  ghost predicate RootedText(n: string) { (1 <= |n| && n[0] == '/') || (2 <= |n| && n[1] == ':') }

  predicate Dots(part: string) { part == "" || part == "." }

  /** It names a file inside: no '/' at its end, no '..', and some segment left once empty ones and '.' fall away. */
  ghost predicate NamesFile(n: string) {
    && (n != "" ==> n[|n| - 1] != '/')
    && (forall k :: 0 <= k < |Split(n)| ==> Split(n)[k] != "..")
    && (exists k :: 0 <= k < |Split(n)| && !Dots(Split(n)[k]))
  }

  /** A compiled file by its last name, or anything in a bytecode directory, in any letter case. */
  ghost predicate NamesCompiled(u: Unicode, parts: seq<string>)
    requires parts != []
  {
    var name := Lower(u, parts[|parts| - 1]);
    || (4 <= |name| && name[|name| - 4..] in {".pyc", ".pyo"})
    || (exists k :: 0 <= k < |parts| && Lower(u, parts[k]) == "__pycache__")
  }

  /** How many bytes UTF-8 takes: one to four for each character, by its code point. */
  lemma {:induction false} Utf8Exactly(a: string, b: string, c: char)
    ensures Utf8Length(a + b) == Utf8Length(a) + Utf8Length(b)
    ensures Utf8Length([c]) == if c as int <= 0x7F then 1 else if c as int <= 0x7FF then 2
                               else if c as int <= 0xFFFF then 3 else 4
  {
    assert [c][1..] == [];
    if a == "" {
      assert a + b == b;
    } else {
      assert (a + b)[0] == a[0] && (a + b)[1..] == a[1..] + b;
      Utf8Exactly(a[1..], b, c);
    }
  }

  /** The segments kept are those that are neither empty nor '.', in order. */
  lemma {:induction false} KeptIsFilter(a: seq<string>, b: seq<string>)
    ensures Kept(a + b) == Kept(a) + Kept(b)
    ensures |a| == 1 ==> Kept(a) == if Dots(a[0]) then [] else a
    ensures Kept([]) == []
  {
    if a == [] {
      assert a + b == b;
    } else {
      assert (a + b)[0] == a[0] && (a + b)[1..] == a[1..] + b;
      KeptIsFilter(a[1..], b);
    }
  }

  lemma {:induction false} KeptMembers(parts: seq<string>, part: string)
    ensures part in Kept(parts) <==> part in parts && !Dots(part)
  {
    if parts != [] {
      KeptMembers(parts[1..], part);
      assert parts == [parts[0]] + parts[1..];
    }
  }

  lemma {:induction false} NamesSomething(n: string)
    ensures Kept(Split(n)) != [] <==> exists k :: 0 <= k < |Split(n)| && !Dots(Split(n)[k])
  {
    if Kept(Split(n)) != [] {
      KeptMembers(Split(n), Kept(Split(n))[0]);
    }
    if k :| 0 <= k < |Split(n)| && !Dots(Split(n)[k]) {
      KeptMembers(Split(n), Split(n)[k]);
    }
  }

  lemma {:induction false} CleanTextChecked(u: Unicode, n: string)
    ensures CleanText(u, n) <==> !Edged(u, n) && '\\' !in n && !HasControl(n)
  {
    forall k | 0 <= k < |n| ensures n[k] in n {
    }
  }

  lemma {:induction false} CompiledChecked(u: Unicode, parts: seq<string>)
    requires parts != []
    ensures NamesCompiled(u, parts) <==> Compiled(u, parts)
  {
    var name := Lower(u, parts[|parts| - 1]);
    assert |".pyc"| == 4 && |".pyo"| == 4;
    assert EndsWith(name, ".pyc") <==> 4 <= |name| && name[|name| - 4..] == ".pyc";
    assert EndsWith(name, ".pyo") <==> 4 <= |name| && name[|name| - 4..] == ".pyo";
  }

  /**
   Exactly which paths are refused as absolute, which as traversal, and which go on to the checks
   of their segments.
   */
  lemma {:induction false} RefusedByText(u: Unicode, path: string)
    ensures var n, r := Nfc(u, path), Normalize(u, path);
      && (CleanText(u, n) && RootedText(n) <==> r == Err(AbsolutePath))
      && (!CleanText(u, n) || (!RootedText(n) && !NamesFile(n)) <==> r == Err(PathTraversal))
      && (CleanText(u, n) && !RootedText(n) && NamesFile(n) <==>
            r.Ok? || r.error in {CompiledArtifact, ComponentTooLong, PathTooLong, PathTooDeep})
  {
    var n := Nfc(u, path);
    CleanTextChecked(u, n);
    KeptMembers(Split(n), "..");
    NamesSomething(n);
  }

  /** Exactly which of those are refused, each for its first reason, and what an accepted one becomes. */
  lemma {:induction false} RefusedBySegments(u: Unicode, path: string)
    requires CleanText(u, Nfc(u, path)) && !RootedText(Nfc(u, path)) && NamesFile(Nfc(u, path))
    ensures Kept(Split(Nfc(u, path))) != []
    ensures var parts, r := Kept(Split(Nfc(u, path))), Normalize(u, path);
      var long := exists k :: 0 <= k < |parts| && Utf8Length(parts[k]) > 255;
      && (r == Err(CompiledArtifact) <==> NamesCompiled(u, parts))
      && (r == Err(ComponentTooLong) <==> !NamesCompiled(u, parts) && long)
      && (r == Err(PathTooLong) <==> !NamesCompiled(u, parts) && !long && Utf8Length(Join(parts)) > 768)
      && (r == Err(PathTooDeep) <==>
            !NamesCompiled(u, parts) && !long && Utf8Length(Join(parts)) <= 768 && |parts| > 64)
      && (r.Ok? <==> !NamesCompiled(u, parts) && !long && Utf8Length(Join(parts)) <= 768 && |parts| <= 64)
      && (r.Ok? ==> r.value == Join(parts))
  {
    var n := Nfc(u, path);
    RefusedByText(u, path);
    CleanTextChecked(u, n);
    KeptMembers(Split(n), "..");
    NamesSomething(n);
    CompiledChecked(u, Kept(Split(n)));
  }

  /** The acceptance of a path, whole. */
  lemma {:induction false} AcceptedExactly(u: Unicode, path: string)
    ensures Normalize(u, path).Ok? <==>
              var n := Nfc(u, path);
              && CleanText(u, n) && !RootedText(n) && NamesFile(n)
              && var parts := Kept(Split(n));
                 && parts != [] && !NamesCompiled(u, parts)
                 && (forall k :: 0 <= k < |parts| ==> Utf8Length(parts[k]) <= 255)
                 && Utf8Length(Join(parts)) <= 768 && |parts| <= 64
  {
    var n := Nfc(u, path);
    RefusedByText(u, path);
    if CleanText(u, n) && !RootedText(n) && NamesFile(n) {
      RefusedBySegments(u, path);
    }
  }

  // ----- What the canonical form is ----------------------------------------------------------------

  lemma {:induction false} KeptFrom(parts: seq<string>)
    ensures forall k :: 0 <= k < |Kept(parts)| ==>
              Kept(parts)[k] in parts && Kept(parts)[k] != "" && Kept(parts)[k] != "."
    ensures (forall k :: 0 <= k < |parts| ==> parts[k] != "" && parts[k] != ".") ==> Kept(parts) == parts
  {
    if parts != [] {
      KeptFrom(parts[1..]);
      assert parts == [parts[0]] + parts[1..];
    }
  }

  /** A canonical path is a relative one whose segments are named, none of them '..'. */
  lemma {:induction false} CanonicalSegments(u: Unicode, path: string, canonical: string)
    requires Lawful(u) && Normalize(u, path) == Ok(canonical)
    ensures var parts := Split(canonical);
      && parts == Kept(Split(Nfc(u, path))) && canonical == Join(parts) && AllPlain(parts)
      && (forall k :: 0 <= k < |parts| ==> parts[k] != "" && parts[k] != "." && parts[k] != "..")
      && Nfc(u, canonical) == canonical
  {
    var parts := Kept(Split(Nfc(u, path)));
    KeptSegments(u, path);
    SplitJoin(parts);
    assert Normalizes(u, canonical);
  }

  lemma {:induction false} KeptSegments(u: Unicode, path: string)
    requires Lawful(u)
    ensures var parts := Kept(Split(Nfc(u, path)));
      && AllPlain(parts)
      && (forall k :: 0 <= k < |parts| ==> parts[k] != "" && parts[k] != "." && Nfc(u, parts[k]) == parts[k])
  {
    var n := Nfc(u, path);
    var parts := Kept(Split(n));
    JoinSplit(n);
    KeptFrom(Split(n));
    assert Normalizes(u, path) && Normalizes(u, n);
    forall k | 0 <= k < |parts| ensures Plain(parts[k]) && Nfc(u, parts[k]) == parts[k] {
      var i :| 0 <= i < |Split(n)| && Split(n)[i] == parts[k];
    }
  }

  lemma {:induction false} KeptCharacters(n: string, c: char)
    requires c in Join(Kept(Split(n))) && c != '/'
    ensures c in n
  {
    var parts := Kept(Split(n));
    KeptFrom(Split(n));
    JoinChars(parts, c);
    var k :| 0 <= k < |parts| && c in parts[k];
    var i :| 0 <= i < |Split(n)| && Split(n)[i] == parts[k];
    SplitChars(n, i, c);
  }

  lemma {:induction false} CanonicalCharacters(u: Unicode, path: string, canonical: string)
    requires Lawful(u) && Normalize(u, path) == Ok(canonical)
    ensures '\\' !in canonical && !HasControl(canonical)
  {
    CanonicalSegments(u, path, canonical);
    forall c | c in canonical && c != '/' ensures c in Nfc(u, path) {
      KeptCharacters(Nfc(u, path), c);
    }
  }

  lemma {:induction false} CanonicalEdges(u: Unicode, path: string, canonical: string)
    requires Lawful(u) && Normalize(u, path) == Ok(canonical)
    ensures canonical != "" && canonical[0] != '/' && canonical[|canonical| - 1] != '/'
  {
    CanonicalSegments(u, path, canonical);
    var parts := Split(canonical);
    var last := parts[|parts| - 1];
    JoinEdges(parts);
    assert parts[0][0] in parts[0] && last[|last| - 1] in last;
  }

  lemma {:induction false} JoinEdges(parts: seq<string>)
    requires parts != [] && forall k :: 0 <= k < |parts| ==> parts[k] != ""
    ensures var joined := Join(parts);
      joined != "" && joined[0] == parts[0][0]
      && joined[|joined| - 1] == parts[|parts| - 1][|parts[|parts| - 1]| - 1]
  {
    if |parts| > 1 {
      var rest := parts[1..];
      JoinEdges(rest);
      assert Join(parts) == parts[0] + "/" + Join(rest);
      assert rest[|rest| - 1] == parts[|parts| - 1];
    }
  }

  // ----- When the canonical form is a fixed point ----------------------------------------------------

  /**
   Canonicalizing twice: the second call accepts the first one's result exactly when that result
   neither begins nor ends with whitespace nor reads as drive-qualified, and then returns it
   unchanged. Dropping a leading './' or a trailing '/.' is what can expose either.
   */
  lemma {:induction false} SecondPass(u: Unicode, path: string, canonical: string)
    requires Lawful(u) && Normalize(u, path) == Ok(canonical)
    ensures Normalize(u, canonical)
         == if Edged(u, canonical) then Err(PathTraversal)
            else if HasDrive(canonical) then Err(AbsolutePath)
            else Ok(canonical)
  {
    CanonicalSegments(u, path, canonical);
    CanonicalCharacters(u, path, canonical);
    CanonicalEdges(u, path, canonical);
    KeptFrom(Split(canonical));
  }

  lemma {:induction false} TrapSegments()
    ensures Split("./ a.py") == [".", " a.py"] && Kept(Split("./ a.py")) == [" a.py"]
    ensures Utf8Length(" a.py") == 5
  {
    assert "./ a.py" == "." + "/" + " a.py";
    SplitAfter(".", " a.py");
    SplitPlain(" a.py");
    assert [".", " a.py"][1..] == [" a.py"] && [" a.py"][1..] == [];
    assert " a.py"[1..] == "a.py" && "a.py"[1..] == ".py" && ".py"[1..] == "py" && "py"[1..] == "y" && "y"[1..] == "";
  }

  lemma {:induction false} TrapChecked(u: Unicode)
    requires Lower(u, " a.py") == " a.py"
    ensures CheckedSegments(u, [" a.py"]) == Ok(" a.py")
  {
    TrapSegments();
    assert !EndsWith(" a.py", ".pyc") by { assert " a.py"[1..][0] == 'a'; }
    assert !EndsWith(" a.py", ".pyo") by { assert " a.py"[1..][0] == 'a'; }
    assert |" a.py"| != |"__pycache__"|;
  }

  /** The trap: './ a.py' becomes ' a.py', which the second pass rejects. */
  lemma {:induction false} DotSlashSpaceIsNotFixed(u: Unicode)
    requires Lawful(u) && !Space(u, '.') && !Space(u, 'y') && Lower(u, " a.py") == " a.py"
    ensures Normalize(u, "./ a.py") == Ok(" a.py") && Normalize(u, " a.py") == Err(PathTraversal)
  {
    TrapAccepted(u);
    SecondPass(u, "./ a.py", " a.py");
  }

  lemma {:induction false} TrapAccepted(u: Unicode)
    requires Lawful(u) && !Space(u, '.') && !Space(u, 'y') && Lower(u, " a.py") == " a.py"
    ensures Normalize(u, "./ a.py") == Ok(" a.py")
  {
    TrapSegments();
    TrapChecked(u);
    AcceptedBy(u, "./ a.py", [" a.py"]);
  }

  lemma {:induction false} PlainCharacters(n: string, middle: string)
    requires |n| == 7 && n[0] == '.' && n[1] == '/' && n[6] == 'y' && n[2..6] == middle && middle == " a.p"
    ensures '\\' !in n && !HasControl(n) && !HasDrive(n)
  {
    assert n[2] == middle[0] && n[3] == middle[1] && n[4] == middle[2] && n[5] == middle[3];
    forall k | 0 <= k < 7 ensures n[k] in {'.', '/', ' ', 'a', 'p', 'y'} {
    }
  }

  lemma {:induction false} AcceptedBy(u: Unicode, n: string, parts: seq<string>)
    requires Lawful(u) && |n| == 7 && n[0] == '.' && n[1] == '/' && n[6] == 'y' && n[2..6] == " a.p"
    requires !Space(u, '.') && !Space(u, 'y') && Kept(Split(n)) == parts && CheckedSegments(u, parts) == Ok(" a.py")
    ensures Normalize(u, n) == Ok(" a.py")
  {
    PlainCharacters(n, " a.p");
    forall c | c in n ensures c as int < 128 {
      assert c in {'.', '/', ' ', 'a', 'p', 'y'};
    }
    assert Normalizes(u, n);
  }

  // ----- Case-insensitive nodes and collisions -----------------------------------------------------

  /** Every tree node a path contributes, shallowest first: the values of case_insensitive_nodes. */
  function Nodes(path: string): (nodes: seq<string>)
    ensures |nodes| == |Split(path)|
    ensures forall k :: 0 <= k < |nodes| ==> nodes[k] == Node(path, k + 1)
  {
    seq(|Split(path)|, k requires 0 <= k < |Split(path)| => Node(path, k + 1))
  }

  /** One path never contributes two nodes under one form, so the dictionary keeps them all. */
  lemma {:induction false} FormsAreDistinct(u: Unicode, path: string, i: nat, k: nat)
    requires Lawful(u) && i < k < |Nodes(path)|
    ensures Lower(u, Nodes(path)[i]) != Lower(u, Nodes(path)[k])
  {
    NodeSegments(path, i + 1);
    NodeSegments(path, k + 1);
    assert LowersBySegments(u, Nodes(path)[i]) && LowersBySegments(u, Nodes(path)[k]);
  }

  function Among(paths: seq<string>): set<string> { set p | p in paths }

  /** The distinct names sharing one form among some paths: names_by_form[form]. */
  ghost function NamesOf(u: Unicode, paths: set<string>, form: string): set<string> {
    set p, k | p in paths && 0 <= k < |Nodes(p)| && Lower(u, Nodes(p)[k]) == form :: Nodes(p)[k]
  }

  /** A node collides when a different name shares its form. */
  ghost predicate Collides(u: Unicode, paths: set<string>, node: string) {
    exists other :: other in NamesOf(u, paths, Lower(u, node)) && other != node
  }

  ghost predicate Rejected(u: Unicode, paths: set<string>, path: string) {
    exists k :: 0 <= k < |Nodes(path)| && Collides(u, paths, Nodes(path)[k])
  }

  /** The reported pair: the shallowest colliding node, and the least other name of its form. */
  ghost predicate Reported(u: Unicode, paths: set<string>, path: string, pair: (string, string)) {
    exists k :: 0 <= k < |Nodes(path)| && ShallowestCollision(u, paths, path, k)
      && pair.0 == Nodes(path)[k] && LeastOther(u, paths, pair.0, pair.1)
  }

  ghost predicate ShallowestCollision(u: Unicode, paths: set<string>, path: string, k: nat)
    requires k < |Nodes(path)|
  {
    Collides(u, paths, Nodes(path)[k]) && forall i :: 0 <= i < k ==> !Collides(u, paths, Nodes(path)[i])
  }

  function Under(names: map<string, set<string>>, form: string): set<string> {
    if form in names then names[form] else {}
  }

  /** The first dictionary: every form the paths contribute, with the names under it. */
  ghost predicate ListsNames(u: Unicode, names: map<string, set<string>>, paths: set<string>) {
    forall form :: Under(names, form) == NamesOf(u, paths, form)
  }

  method NamesByForm(u: Unicode, paths: seq<string>) returns (names: map<string, set<string>>)
    ensures ListsNames(u, names, Among(paths))
  {
    names := map[];
    for i := 0 to |paths|
      invariant ListsNames(u, names, Among(paths[..i]))
    {
      names := AddPath(u, names, Among(paths[..i]), paths[i]);
      assert Among(paths[..i + 1]) == Among(paths[..i]) + {paths[i]};
    }
    assert paths[..|paths|] == paths;
  }

  /** The names of one form once a further path contributed its nodes up to a depth. */
  ghost function NamesWith(u: Unicode, before: set<string>, path: string, depth: nat, form: string): set<string> {
    NamesOf(u, before, form)
    + set k | 0 <= k < |Nodes(path)| && k < depth && Lower(u, Nodes(path)[k]) == form :: Nodes(path)[k]
  }

  lemma NamesWithNext(u: Unicode, before: set<string>, path: string, depth: nat, form: string)
    requires depth < |Nodes(path)|
    ensures NamesWith(u, before, path, depth + 1, form)
         == NamesWith(u, before, path, depth, form)
            + if Lower(u, Nodes(path)[depth]) == form then {Nodes(path)[depth]} else {}
  {
  }

  lemma NamesWithAll(u: Unicode, before: set<string>, path: string, form: string)
    ensures NamesWith(u, before, path, |Nodes(path)|, form) == NamesOf(u, before + {path}, form)
  {
  }

  method AddPath(u: Unicode, names: map<string, set<string>>, ghost before: set<string>, path: string)
    returns (more: map<string, set<string>>)
    requires ListsNames(u, names, before)
    ensures ListsNames(u, more, before + {path})
  {
    more := names;
    var nodes := Nodes(path);
    for k := 0 to |nodes|
      invariant forall form :: Under(more, form) == NamesWith(u, before, path, k, form)
    {
      var form := Lower(u, nodes[k]);
      ghost var was := more;
      more := more[form := Under(more, form) + {nodes[k]}];
      forall f ensures Under(more, f) == NamesWith(u, before, path, k + 1, f) {
        NamesWithNext(u, before, path, k, f);
        assert Under(was, f) == NamesWith(u, before, path, k, f);
      }
    }
    forall form { NamesWithAll(u, before, path, form); }
  }

  /** The rejections among the paths seen so far. */
  ghost predicate Reports(u: Unicode, paths: set<string>, seen: seq<string>, rejected: map<string, (string, string)>) {
    && (forall p :: p in rejected <==> p in seen && Rejected(u, paths, p))
    && (forall p :: p in rejected ==> Reported(u, paths, p, rejected[p]))
  }

  lemma {:induction false} ReportsNext(u: Unicode, paths: set<string>, seen: seq<string>, next: string,
                                       rejected: map<string, (string, string)>, pair: Option<(string, string)>)
    requires Reports(u, paths, seen, rejected) && (pair.Some? <==> Rejected(u, paths, next))
    requires pair.Some? ==> Reported(u, paths, next, pair.value)
    ensures Reports(u, paths, seen + [next], if pair.Some? then rejected[next := pair.value] else rejected)
  {
  }

  /** case_insensitive_collisions. */
  method CaseInsensitiveCollisions(u: Unicode, paths: seq<string>) returns (rejected: map<string, (string, string)>)
    ensures forall p :: p in rejected <==> p in paths && Rejected(u, Among(paths), p)
    ensures forall p :: p in rejected ==> Reported(u, Among(paths), p, rejected[p])
  {
    var names := NamesByForm(u, paths);
    rejected := map[];
    for i := 0 to |paths|
      invariant Reports(u, Among(paths), paths[..i], rejected)
    {
      var pair := FirstCollision(u, names, Among(paths), paths[i]);
      ReportsNext(u, Among(paths), paths[..i], paths[i], rejected, pair);
      assert paths[..i + 1] == paths[..i] + [paths[i]];
      if pair.Some? {
        rejected := rejected[paths[i] := pair.value];
      }
    }
    assert paths[..|paths|] == paths;
  }

  lemma {:induction false} OthersTell(u: Unicode, paths: set<string>, node: string)
    ensures Collides(u, paths, node) <==> NamesOf(u, paths, Lower(u, node)) - {node} != {}
  {
    var others := NamesOf(u, paths, Lower(u, node)) - {node};
    if others != {} {
      var other :| other in others;
      assert other in NamesOf(u, paths, Lower(u, node)) && other != node;
    }
    if Collides(u, paths, node) {
      var other :| other in NamesOf(u, paths, Lower(u, node)) && other != node;
      assert other in others;
    }
  }

  /** The least other name under a node's form, if there is one. */
  ghost predicate LeastOther(u: Unicode, paths: set<string>, node: string, other: string) {
    && other in NamesOf(u, paths, Lower(u, node)) && other != node
    && (forall n :: n in NamesOf(u, paths, Lower(u, node)) && n != node ==> AtMost(other, n))
  }

  method OtherName(u: Unicode, names: map<string, set<string>>, ghost paths: set<string>, node: string)
    returns (other: Option<string>)
    requires ListsNames(u, names, paths)
    ensures other.Some? <==> Collides(u, paths, node)
    ensures other.Some? ==> LeastOther(u, paths, node, other.value)
  {
    var others := Under(names, Lower(u, node)) - {node};
    OthersTell(u, paths, node);
    if others == {} {
      return None;
    }
    var least := Minimum(others);
    return Some(least);
  }

  ghost predicate NoneCollides(u: Unicode, paths: set<string>, path: string, k: nat)
    requires k <= |Nodes(path)|
  {
    forall i :: 0 <= i < k ==> !Collides(u, paths, Nodes(path)[i])
  }

  lemma {:induction false} CollisionReported(u: Unicode, paths: set<string>, path: string, k: nat, other: string)
    requires k < |Nodes(path)| && NoneCollides(u, paths, path, k) && Collides(u, paths, Nodes(path)[k])
    requires LeastOther(u, paths, Nodes(path)[k], other)
    ensures Rejected(u, paths, path) && Reported(u, paths, path, (Nodes(path)[k], other))
  {
    assert ShallowestCollision(u, paths, path, k);
  }

  lemma {:induction false} NoneCollidesNext(u: Unicode, paths: set<string>, path: string, k: nat)
    requires k < |Nodes(path)| && NoneCollides(u, paths, path, k) && !Collides(u, paths, Nodes(path)[k])
    ensures NoneCollides(u, paths, path, k + 1)
  {
  }

  lemma {:induction false} NoneRejects(u: Unicode, paths: set<string>, path: string)
    requires NoneCollides(u, paths, path, |Nodes(path)|)
    ensures !Rejected(u, paths, path)
  {
  }

  /** The scan of one path's nodes, stopping at the shallowest that collides. */
  method FirstCollision(u: Unicode, names: map<string, set<string>>, ghost paths: set<string>, path: string)
    returns (pair: Option<(string, string)>)
    requires path in paths && ListsNames(u, names, paths)
    ensures pair.Some? <==> Rejected(u, paths, path)
    ensures pair.Some? ==> Reported(u, paths, path, pair.value)
  {
    var nodes := Nodes(path);
    for k := 0 to |nodes|
      invariant NoneCollides(u, paths, path, k)
    {
      var other := OtherName(u, names, paths, nodes[k]);
      if other.Some? {
        CollisionReported(u, paths, path, k, other.value);
        return Some((nodes[k], other.value));
      }
      NoneCollidesNext(u, paths, path, k);
    }
    NoneRejects(u, paths, path);
    return None;
  }

  /** No collision among some paths: no two different nodes share a form. */
  lemma {:induction false} CollisionFree(u: Unicode, paths: set<string>, p: string, i: nat, q: string, k: nat)
    requires forall r :: r in paths ==> !Rejected(u, paths, r)
    requires p in paths && q in paths && i < |Nodes(p)| && k < |Nodes(q)|
    requires Lower(u, Nodes(p)[i]) == Lower(u, Nodes(q)[k])
    ensures Nodes(p)[i] == Nodes(q)[k]
  {
    assert Nodes(q)[k] in NamesOf(u, paths, Lower(u, Nodes(p)[i]));
    assert !Collides(u, paths, Nodes(p)[i]);
  }
}
