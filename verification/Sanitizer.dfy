/** Stripping runtime identities out of persisted text (validation.py, runtime/naming.py). */
module Sanitizer {
  import opened Prelude

  predicate OccursAt(text: string, word: string, i: nat) {
    i + |word| <= |text| && text[i..i + |word|] == word
  }

  ghost predicate Contains(text: string, word: string) { exists i: nat :: OccursAt(text, word, i) }

  /** text.find(word, i), from the left. */
  function FindFrom(text: string, word: string, i: nat): (found: Option<nat>)
    requires i <= |text|
    ensures found.Some? ==> i <= found.value && OccursAt(text, word, found.value)
    ensures forall k :: i <= k < (if found.Some? then found.value else |text| + 1) ==> !OccursAt(text, word, k)
    decreases |text| - i
  {
    if OccursAt(text, word, i) then Some(i)
    else if i == |text| then None
    else FindFrom(text, word, i + 1)
  }

  /** text.replace(word, by): every occurrence from the left, none overlapping. */
  function Replace(text: string, word: string, public: string): string
    requires word != ""
  {
    var found := FindFrom(text, word, 0);
    if found.None? then text
    else text[..found.value] + public + Replace(text[found.value + |word|..], word, public)
  }

  // ----- What a replacement leaves behind ------------------------------------------------------------

  lemma {:induction false} TakeContains(text: string, n: nat, word: string)
    requires n <= |text| && Contains(text[..n], word)
    ensures exists i: nat :: OccursAt(text, word, i) && i + |word| <= n
  {
    var i: nat :| OccursAt(text[..n], word, i);
    assert text[..n][i..i + |word|] == text[i..i + |word|];
    assert OccursAt(text, word, i);
  }

  lemma {:induction false} DropContains(text: string, n: nat, word: string)
    requires n <= |text| && Contains(text[n..], word)
    ensures Contains(text, word)
  {
    var i: nat :| OccursAt(text[n..], word, i);
    assert text[n..][i..i + |word|] == text[n + i..n + i + |word|];
    assert OccursAt(text, word, n + i);
  }

  /** An occurrence in a joined text lies on one side, or takes in the characters at the seam. */
  lemma {:induction false} Straddles(a: string, b: string, word: string, i: nat)
    requires OccursAt(a + b, word, i) && word != ""
    ensures || OccursAt(a, word, i)
            || (i >= |a| && OccursAt(b, word, i - |a|))
            || (a != "" && b != "" && a[|a| - 1] in word && b[0] in word)
  {
    var joined := a + b;
    if i + |word| <= |a| {
      assert joined[i..i + |word|] == a[i..i + |word|];
    } else if i >= |a| {
      assert joined[i..i + |word|] == b[i - |a|..i - |a| + |word|];
    } else {
      assert word[|a| - 1 - i] == joined[i..i + |word|][|a| - 1 - i] == a[|a| - 1];
      assert word[|a| - i] == joined[i..i + |word|][|a| - i] == b[0];
    }
  }

  lemma {:induction false} NoStraddle(a: string, b: string, word: string)
    requires !Contains(a, word) && !Contains(b, word) && word != ""
    requires (a == "" || a[|a| - 1] !in word) || (b == "" || b[0] !in word)
    ensures !Contains(a + b, word)
  {
    forall i: nat ensures !OccursAt(a + b, word, i) {
      if OccursAt(a + b, word, i) {
        Straddles(a, b, word, i);
        assert false;
      }
    }
  }

  lemma {:induction false} GapIsFree(text: string, word: string, i: nat, absent: string)
    requires word != "" && FindFrom(text, word, 0) == Some(i) && absent != ""
    requires absent == word || !Contains(text, absent)
    ensures !Contains(text[..i], absent)
  {
    if Contains(text[..i], absent) {
      TakeContains(text, i, absent);
      assert false;
    }
  }

  predicate Unfenced(word: string) { word != "" && '<' !in word && '>' !in word }

  predicate Fenced(public: string) { |public| >= 2 && public[0] == '<' && public[|public| - 1] == '>' }

  /**
   A fenced placeholder creates no occurrence: the replaced word is gone from the result, and a
   word that was absent stays absent, whatever the deletions of earlier replacements joined.
   */
  lemma {:induction false} FencedReplacement(text: string, word: string, public: string, absent: string)
    requires word != "" && Fenced(public) && Unfenced(absent) && !Contains(public, absent)
    requires absent == word || !Contains(text, absent)
    ensures !Contains(Replace(text, word, public), absent)
    decreases |text|
  {
    var found := FindFrom(text, word, 0);
    if found.None? {
      assert forall i: nat :: i <= |text| ==> !OccursAt(text, word, i);
    } else {
      var i := found.value;
      var gap, rest := text[..i], text[i + |word|..];
      GapIsFree(text, word, i, absent);
      if absent != word && Contains(rest, absent) {
        DropContains(text, i + |word|, absent);
      }
      FencedReplacement(rest, word, public, absent);
      NoStraddle(gap, public, absent);
      assert (gap + public)[|gap + public| - 1] == '>';
      NoStraddle(gap + public, Replace(rest, word, public), absent);
    }
  }

  lemma {:induction false} AbsentReplacement(text: string, word: string, public: string)
    requires word != "" && !Contains(text, word)
    ensures Replace(text, word, public) == text
  {
    assert FindFrom(text, word, 0).None?;
  }

  lemma {:induction false} InnerOccurs(text: string, word: string, inner: string, k: nat, i: nat)
    requires OccursAt(text, word, k) && OccursAt(word, inner, i)
    ensures OccursAt(text, inner, k + i)
  {
    var found := text[k + i..k + i + |inner|];
    forall m | 0 <= m < |inner| ensures found[m] == inner[m] {
      assert text[k..k + |word|][i + m] == word[i..i + |inner|][m];
    }
  }

  lemma {:induction false} WiderIsAbsent(text: string, word: string, inner: string, i: nat)
    requires !Contains(text, inner) && OccursAt(word, inner, i)
    ensures !Contains(text, word)
  {
    forall k: nat ensures !OccursAt(text, word, k) {
      if OccursAt(text, word, k) {
        InnerOccurs(text, word, inner, k, i);
        assert false;
      }
    }
  }

  // ----- One revision's identities -----------------------------------------------------------------------

  const PRIVATE_ROOT := "_netbox_scripts_runtime"

  predicate HexDigit(c: char) { '0' <= c <= '9' || 'a' <= c <= 'f' }

  /** A storage key in both spellings, a digest, and the directory the cache lives under. */
  datatype Revision = Revision(cacheRoot: string, key: string, hex: string, digest: string)

  predicate Valid(r: Revision) {
    && |r.key| == 36 && (forall c :: c in r.key ==> HexDigit(c) || c == '-')
    && |r.hex| == 32 && (forall c :: c in r.hex ==> HexDigit(c))
    && |r.digest| == 64 && (forall c :: c in r.digest ==> HexDigit(c))
  }

  /** project_module_name. */
  function ProjectName(r: Revision): string { PRIVATE_ROOT + ".p_" + r.hex }

  /** revision_module_name. */
  function RevisionName(r: Revision): string { ProjectName(r) + ".r_" + r.digest }

  /** local_revision_dir. */
  function CacheDir(r: Revision): string { r.cacheRoot + "/" + r.key + "/" + r.digest }

  datatype Replacement = Replacement(private: string, public: string)

  function Replacements(r: Revision): (all: seq<Replacement>)
    requires Valid(r)
    ensures |all| == 10 && forall k :: 0 <= k < 10 ==> all[k].private != ""
  {
    [Replacement(CacheDir(r) + "/", ""),
     Replacement(CacheDir(r), "<revision>"),
     Replacement(RevisionName(r) + ".", ""),
     Replacement(RevisionName(r), "<revision>"),
     Replacement(ProjectName(r) + ".", ""),
     Replacement(ProjectName(r), "<project>"),
     Replacement(PRIVATE_ROOT, "<runtime>"),
     Replacement(r.key, "<storage>"),
     Replacement(r.hex, "<storage>"),
     Replacement(r.digest, "<digest>")]
  }

  /** The text after the replacements from the n-th on. */
  function SanitizeFrom(r: Revision, text: string, n: nat): string
    requires Valid(r) && n <= 10
    decreases 10 - n
  {
    if n == 10 then text
    else SanitizeFrom(r, Replace(text, Replacements(r)[n].private, Replacements(r)[n].public), n + 1)
  }

  /** The sanitizer build_error_sanitizer returns. */
  method Sanitize(r: Revision, text: Option<string>) returns (clean: Option<string>)
    requires Valid(r)
    ensures clean.Some? <==> text.Some?
    ensures text.Some? ==> clean == Some(SanitizeFrom(r, text.value, 0)) && NamesNothing(r, clean.value)
  {
    if text.None? {
      return None;
    }
    var replacements := Replacements(r);
    var current := text.value;
    for n := 0 to |replacements|
      invariant SanitizeFrom(r, current, n) == SanitizeFrom(r, text.value, 0)
    {
      current := Replace(current, replacements[n].private, replacements[n].public);
    }
    NothingPrivateSurvives(r, text.value);
    return Some(current);
  }

  /** No identity of the revision is named: not its cache directory, module names, root, storage key or digest. */
  ghost predicate NamesNothing(r: Revision, text: string) {
    && !Contains(text, CacheDir(r))
    && !Contains(text, RevisionName(r))
    && !Contains(text, ProjectName(r))
    && !Contains(text, PRIVATE_ROOT)
    && !Contains(text, r.key)
    && !Contains(text, r.hex)
    && !Contains(text, r.digest)
  }

  lemma {:induction false} LongIsAbsent(text: string, word: string)
    requires |word| > |text|
    ensures !Contains(text, word)
  {
  }

  lemma {:induction false} SanitizeStep(r: Revision, text: string, n: nat)
    requires Valid(r) && n < 10
    ensures SanitizeFrom(r, text, n)
         == SanitizeFrom(r, Replace(text, Replacements(r)[n].private, Replacements(r)[n].public), n + 1)
  {
  }

  lemma {:induction false} RootIsUnfenced()
    ensures Unfenced(PRIVATE_ROOT)
  {
    assert forall k :: 0 <= k < |PRIVATE_ROOT| ==> PRIVATE_ROOT[k] != '<' && PRIVATE_ROOT[k] != '>';
  }

  /** The last four replacements, whatever the first six left. */
  lemma {:induction false} LastFour(r: Revision, text: string)
    requires Valid(r)
    ensures var clean := SanitizeFrom(r, text, 6);
      !Contains(clean, PRIVATE_ROOT) && !Contains(clean, r.key) && !Contains(clean, r.hex) && !Contains(clean, r.digest)
  {
    RootIsUnfenced();
    var a := Replace(text, PRIVATE_ROOT, "<runtime>");
    var b := Replace(a, r.key, "<storage>");
    var c := Replace(b, r.hex, "<storage>");
    var d := Replace(c, r.digest, "<digest>");
    assert SanitizeFrom(r, text, 6) == d by {
      SanitizeStep(r, text, 6);
      SanitizeStep(r, a, 7);
      SanitizeStep(r, b, 8);
      SanitizeStep(r, c, 9);
    }
    LongIsAbsent("<runtime>", PRIVATE_ROOT);
    LongIsAbsent("<storage>", PRIVATE_ROOT);
    LongIsAbsent("<digest>", PRIVATE_ROOT);
    LongIsAbsent("<storage>", r.key);
    LongIsAbsent("<digest>", r.key);
    LongIsAbsent("<storage>", r.hex);
    LongIsAbsent("<digest>", r.hex);
    LongIsAbsent("<digest>", r.digest);
    FencedReplacement(text, PRIVATE_ROOT, "<runtime>", PRIVATE_ROOT);
    FencedReplacement(a, r.key, "<storage>", PRIVATE_ROOT);
    FencedReplacement(b, r.hex, "<storage>", PRIVATE_ROOT);
    FencedReplacement(c, r.digest, "<digest>", PRIVATE_ROOT);
    FencedReplacement(a, r.key, "<storage>", r.key);
    FencedReplacement(b, r.hex, "<storage>", r.key);
    FencedReplacement(c, r.digest, "<digest>", r.key);
    FencedReplacement(b, r.hex, "<storage>", r.hex);
    FencedReplacement(c, r.digest, "<digest>", r.hex);
    FencedReplacement(c, r.digest, "<digest>", r.digest);
  }

  /** For every text, the sanitized text names nothing private. */
  lemma {:induction false} NothingPrivateSurvives(r: Revision, text: string)
    requires Valid(r)
    ensures NamesNothing(r, SanitizeFrom(r, text, 0))
  {
    var clean := SanitizeFrom(r, text, 0);
    SanitizeSplits(r, text, 6);
    LastFour(r, After(r, text, 6));
    RootAbsent(r, clean);
    assert OccursAt(CacheDir(r), r.digest, |r.cacheRoot + "/" + r.key + "/"|);
    WiderIsAbsent(clean, CacheDir(r), r.digest, |r.cacheRoot + "/" + r.key + "/"|);
  }

  lemma {:induction false} RootAbsent(r: Revision, text: string)
    requires !Contains(text, PRIVATE_ROOT)
    ensures !Contains(text, ProjectName(r)) && !Contains(text, RevisionName(r))
  {
    assert OccursAt(ProjectName(r), PRIVATE_ROOT, 0);
    assert RevisionName(r)[..|PRIVATE_ROOT|] == ProjectName(r)[..|PRIVATE_ROOT|];
    assert OccursAt(RevisionName(r), PRIVATE_ROOT, 0);
    WiderIsAbsent(text, ProjectName(r), PRIVATE_ROOT, 0);
    WiderIsAbsent(text, RevisionName(r), PRIVATE_ROOT, 0);
  }

  /** The text after the first n replacements. */
  function After(r: Revision, text: string, n: nat): string
    requires Valid(r) && n <= 10
  {
    if n == 0 then text
    else Replace(After(r, text, n - 1), Replacements(r)[n - 1].private, Replacements(r)[n - 1].public)
  }

  lemma {:induction false} SanitizeSplits(r: Revision, text: string, n: nat)
    requires Valid(r) && n <= 10
    ensures SanitizeFrom(r, text, 0) == SanitizeFrom(r, After(r, text, n), n)
  {
    if n > 0 {
      SanitizeSplits(r, text, n - 1);
      SanitizeStep(r, After(r, text, n - 1), n - 1);
    }
  }

  // ----- What it leaves alone, and what it puts in place ---------------------------------------------------

  lemma {:induction false} NamesNothingAtAll(r: Revision, text: string, k: nat)
    requires Valid(r) && NamesNothing(r, text) && k < 10
    ensures !Contains(text, Replacements(r)[k].private)
  {
    assert OccursAt(CacheDir(r) + "/", CacheDir(r), 0);
    WiderIsAbsent(text, CacheDir(r) + "/", CacheDir(r), 0);
    assert OccursAt(RevisionName(r) + ".", RevisionName(r), 0);
    WiderIsAbsent(text, RevisionName(r) + ".", RevisionName(r), 0);
    assert OccursAt(ProjectName(r) + ".", ProjectName(r), 0);
    WiderIsAbsent(text, ProjectName(r) + ".", ProjectName(r), 0);
  }

  lemma {:induction false} CleanFrom(r: Revision, text: string, n: nat)
    requires Valid(r) && n <= 10 && forall k :: n <= k < 10 ==> !Contains(text, Replacements(r)[k].private)
    ensures SanitizeFrom(r, text, n) == text
    decreases 10 - n
  {
    if n < 10 {
      AbsentReplacement(text, Replacements(r)[n].private, Replacements(r)[n].public);
      CleanFrom(r, text, n + 1);
    }
  }

  /** A text that names nothing private is untouched, so sanitizing twice is sanitizing once. */
  lemma {:induction false} SanitizingIsIdempotent(r: Revision, text: string)
    requires Valid(r)
    ensures NamesNothing(r, text) ==> SanitizeFrom(r, text, 0) == text
    ensures SanitizeFrom(r, SanitizeFrom(r, text, 0), 0) == SanitizeFrom(r, text, 0)
  {
    if NamesNothing(r, text) {
      forall k | 0 <= k < 10 { NamesNothingAtAll(r, text, k); }
      CleanFrom(r, text, 0);
    }
    var clean := SanitizeFrom(r, text, 0);
    NothingPrivateSurvives(r, text);
    forall k | 0 <= k < 10 { NamesNothingAtAll(r, clean, k); }
    CleanFrom(r, clean, 0);
  }

  /** A storage key is 36 characters of a UUID, its hex form 32, a digest 64. */
  lemma {:induction false} ValidExactly(r: Revision)
    ensures Valid(r) <==>
              && |r.key| == 36 && |r.hex| == 32 && |r.digest| == 64
              && (forall c :: c in r.key ==> c in "0123456789abcdef-")
              && (forall c :: c in r.hex + r.digest ==> c in "0123456789abcdef")
  {
    forall c: char ensures HexDigit(c) <==> c in "0123456789abcdef" {
      HexDigits(c);
    }
    forall c: char ensures c in "0123456789abcdef-" <==> c in "0123456789abcdef" || c == '-' {
      assert "0123456789abcdef-" == "0123456789abcdef" + "-";
    }
  }

  lemma {:induction false} HexDigits(c: char)
    ensures HexDigit(c) <==> c in "0123456789abcdef"
  {
    var digits := "0123456789abcdef";
    assert |digits| == 16;
    assert forall k :: 0 <= k < 10 ==> digits[k] as int == 48 + k;
    assert forall k :: 10 <= k < 16 ==> digits[k] as int == 87 + k;
    if HexDigit(c) {
      assert digits[if c <= '9' then c as int - 48 else c as int - 87] == c;
    }
  }

  /** The ten identities, in the order they are replaced, and what each becomes. */
  lemma {:induction false} IdentitiesNamed(r: Revision, k: nat)
    requires Valid(r) && k < 10
    ensures var root := "_netbox_scripts_runtime";
      var project := root + ".p_" + r.hex;
      var revision := project + ".r_" + r.digest;
      var directory := r.cacheRoot + "/" + r.key + "/" + r.digest;
      && Replacements(r)[k].private
         == [directory + "/", directory, revision + ".", revision, project + ".", project, root, r.key, r.hex,
             r.digest][k]
      && Replacements(r)[k].public
         == ["", "<revision>", "", "<revision>", "", "<project>", "<runtime>", "<storage>", "<storage>", "<digest>"][k]
  {
  }

  /** The text reaches its k-th replacement unchanged, and that one finds a single occurrence. */
  ghost predicate NamesOnly(r: Revision, before: string, k: nat, after: string)
    requires Valid(r) && k < 10
  {
    var private := Replacements(r)[k].private;
    var text := before + private + after;
    && (forall i :: 0 <= i < k ==> !Contains(text, Replacements(r)[i].private))
    && (forall i: nat :: i < |before| ==> !OccursAt(text, private, i))
    && !Contains(after, private)
  }

  /** Each identity reduces to its own placeholder, and nothing around it moves. */
  lemma {:induction false} IdentityReducesInPlace(r: Revision, before: string, k: nat, after: string)
    requires Valid(r) && k < 10 && NamesOnly(r, before, k, after)
    requires NamesNothing(r, before + Replacements(r)[k].public + after)
    ensures SanitizeFrom(r, before + Replacements(r)[k].private + after, 0)
            == before + Replacements(r)[k].public + after
  {
    var e := Replacements(r)[k];
    var text, reduced := before + e.private + after, before + e.public + after;
    CleanUpTo(r, text, k);
    SanitizeSplits(r, text, k);
    ReplaceOnce(before, e.private, after, e.public);
    SanitizeStep(r, text, k);
    forall i | 0 <= i < 10 { NamesNothingAtAll(r, reduced, i); }
    CleanFrom(r, reduced, k + 1);
  }

  lemma {:induction false} CleanUpTo(r: Revision, text: string, n: nat)
    requires Valid(r) && n <= 10 && forall k :: 0 <= k < n ==> !Contains(text, Replacements(r)[k].private)
    ensures After(r, text, n) == text
  {
    if n > 0 {
      CleanUpTo(r, text, n - 1);
      AbsentReplacement(text, Replacements(r)[n - 1].private, Replacements(r)[n - 1].public);
    }
  }

  lemma {:induction false} ReplaceOnce(before: string, word: string, after: string, public: string)
    requires word != "" && !Contains(after, word)
    requires forall i: nat :: i < |before| ==> !OccursAt(before + word + after, word, i)
    ensures Replace(before + word + after, word, public) == before + public + after
  {
    var text := before + word + after;
    assert OccursAt(text, word, |before|);
    var found := FindFrom(text, word, 0);
    assert found == Some(|before|);
    assert text[..|before|] == before && text[|before| + |word|..] == after;
    AbsentReplacement(after, word, public);
  }
}
