/** Splitting on '/', joining back, and the code point order Python sorts strings by. */
module Segments {

  /** str.split('/'). */
  function Split(s: string): (parts: seq<string>)
    ensures |parts| >= 1
  {
    if s == "" then [""]
    else
      var rest := Split(s[1..]);
      if s[0] == '/' then [""] + rest else [[s[0]] + rest[0]] + rest[1..]
  }

  /** '/'.join(parts). */
  function Join(parts: seq<string>): string {
    if parts == [] then ""
    else if |parts| == 1 then parts[0]
    else parts[0] + "/" + Join(parts[1..])
  }

  predicate Plain(part: string) { '/' !in part }

  ghost predicate AllPlain(parts: seq<string>) {
    forall k :: 0 <= k < |parts| ==> Plain(parts[k])
  }

  lemma {:induction false} JoinSplit(s: string)
    ensures Join(Split(s)) == s && AllPlain(Split(s))
  {
    if s != "" {
      JoinSplit(s[1..]);
      var rest := Split(s[1..]);
      if s[0] == '/' {
        assert ([""] + rest)[1..] == rest;
      } else {
        var parts := [[s[0]] + rest[0]] + rest[1..];
        assert parts[1..] == rest[1..];
        assert Join(parts) == [s[0]] + Join(rest);
      }
    }
  }

  lemma {:induction false} SplitPlain(s: string)
    requires Plain(s)
    ensures Split(s) == [s]
  {
    if s != "" {
      SplitPlain(s[1..]);
      assert s[0] in s && s == [s[0]] + s[1..];
    }
  }

  lemma {:induction false} SplitAfter(part: string, tail: string)
    requires Plain(part)
    ensures Split(part + "/" + tail) == [part] + Split(tail)
  {
    var s := part + "/" + tail;
    if part == "" {
      assert s[1..] == tail;
    } else {
      SplitAfter(part[1..], tail);
      assert s[1..] == part[1..] + "/" + tail;
      assert s[0] == part[0] && part[0] in part && [part[0]] + part[1..] == part;
    }
  }

  lemma {:induction false} SplitJoin(parts: seq<string>)
    requires parts != [] && AllPlain(parts)
    ensures Split(Join(parts)) == parts
  {
    if |parts| == 1 {
      SplitPlain(parts[0]);
    } else {
      SplitJoin(parts[1..]);
      SplitAfter(parts[0], Join(parts[1..]));
    }
  }

  lemma JoinChars(parts: seq<string>, c: char)
    requires c in Join(parts)
    ensures c == '/' || exists k :: 0 <= k < |parts| && c in parts[k]
  {
    if |parts| > 1 && c !in parts[0] && c != '/' {
      JoinChars(parts[1..], c);
      var k :| 0 <= k < |parts[1..]| && c in parts[1..][k];
      assert c in parts[k + 1];
    }
  }

  lemma SplitChars(s: string, k: nat, c: char)
    requires k < |Split(s)| && c in Split(s)[k]
    ensures c in s
  {
    if s != "" {
      var rest := Split(s[1..]);
      if s[0] == '/' {
        if k > 0 { SplitChars(s[1..], k - 1, c); }
      } else if k > 0 {
        SplitChars(s[1..], k, c);
      } else if c != s[0] {
        SplitChars(s[1..], 0, c);
      }
    }
  }

  // ----- Ancestors -------------------------------------------------------------------------

  /** The first k segments of a path, as a path: a file or one of its ancestor directories. */
  function Node(path: string, k: nat): string
    requires k <= |Split(path)|
  {
    Join(Split(path)[..k])
  }

  lemma {:induction false} NodeSegments(path: string, k: nat)
    requires 0 < k <= |Split(path)|
    ensures Split(Node(path, k)) == Split(path)[..k]
  {
    JoinSplit(path);
    SplitJoin(Split(path)[..k]);
  }

  lemma {:induction false} WholeNode(path: string)
    ensures Node(path, |Split(path)|) == path
  {
    JoinSplit(path);
    assert Split(path)[..|Split(path)|] == Split(path);
  }

  // ----- Order -----------------------------------------------------------------------------

  /** a <= b as Python compares strings. */
  predicate AtMost(a: string, b: string) {
    a == "" || (b != "" && (a[0] < b[0] || (a[0] == b[0] && AtMost(a[1..], b[1..]))))
  }

  predicate Before(a: string, b: string) { AtMost(a, b) && a != b }

  lemma {:induction false} AtMostTotal(a: string, b: string)
    ensures AtMost(a, b) || AtMost(b, a)
    ensures AtMost(a, a)
  {
    if a != "" {
      AtMostTotal(a[1..], if b == "" then "" else b[1..]);
    }
  }

  lemma {:induction false} AtMostAntisymmetric(a: string, b: string)
    requires AtMost(a, b) && AtMost(b, a)
    ensures a == b
  {
    if a != "" {
      AtMostAntisymmetric(a[1..], b[1..]);
      assert a == [a[0]] + a[1..] && b == [b[0]] + b[1..];
    }
  }

  lemma {:induction false} AtMostTransitive(a: string, b: string, c: string)
    requires AtMost(a, b) && AtMost(b, c)
    ensures AtMost(a, c)
  {
    if a != "" && a[0] == b[0] && b[0] == c[0] {
      AtMostTransitive(a[1..], b[1..], c[1..]);
    }
  }

  ghost predicate StrictlySorted(s: seq<string>) {
    forall i, j :: 0 <= i < j < |s| ==> Before(s[i], s[j])
  }

  /** min(names). */
  method Minimum(names: set<string>) returns (least: string)
    requires names != {}
    ensures least in names && forall n :: n in names ==> AtMost(least, n)
  {
    least :| least in names;
    AtMostTotal(least, least);
    var left := names - {least};
    while left != {}
      invariant left <= names && least in names
      invariant forall n :: n in names && n !in left ==> AtMost(least, n)
      decreases |left|
    {
      var n :| n in left;
      AtMostTotal(least, n);
      if AtMost(n, least) {
        forall m | m in names && m !in left ensures AtMost(n, m) { AtMostTransitive(n, least, m); }
        AtMostTotal(n, n);
        least := n;
      }
      left := left - {n};
    }
  }

  /** sorted(names), for distinct names. */
  method Sorted(names: set<string>) returns (sorted: seq<string>)
    ensures StrictlySorted(sorted)
    ensures forall n :: n in sorted <==> n in names
    ensures |sorted| == |names|
  {
    sorted := [];
    var left := names;
    while left != {}
      invariant left <= names && StrictlySorted(sorted) && |sorted| + |left| == |names|
      invariant forall n :: n in sorted <==> n in names - left
      invariant forall i, n :: 0 <= i < |sorted| && n in left ==> Before(sorted[i], n)
      decreases |left|
    {
      var least := Minimum(left);
      sorted := sorted + [least];
      left := left - {least};
    }
  }
}
