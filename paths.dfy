/** The string and path helpers the two stages use, as Python defines them:
    `str.lower` (restricted to ASCII letters), `str.endswith`, and
    `os.path.basename`, `os.path.splitext` and `os.path.join` for POSIX paths. */
module Paths {

  const Sep: char := '/'
  const ExtSep: char := '.'

  predicate IsUpper(c: char) {
    'A' <= c <= 'Z'
  }

  /** `c.lower()` for ASCII: an upper-case letter becomes its lower-case
      partner, every other character is kept. */
  function LowerChar(c: char): (r: char)
    ensures !IsUpper(r)
    ensures !IsUpper(c) ==> r == c
    ensures IsUpper(c) ==> 'a' <= r <= 'z' && r as int - 'a' as int == c as int - 'A' as int
  {
    if IsUpper(c) then (c as int + 32) as char else c
  }

  /** `s.lower()`, character by character. */
  function Lower(s: string): (r: string)
    ensures |r| == |s|
    ensures forall i :: 0 <= i < |s| ==> r[i] == LowerChar(s[i])
  {
    if s == [] then [] else [LowerChar(s[0])] + Lower(s[1..])
  }

  /** `s.endswith(suffix)`. */
  predicate EndsWith(s: string, suffix: string) {
    |suffix| <= |s| && s[|s| - |suffix|..] == suffix
  }

  /** The selection test of both stages: `name.lower().endswith(ext)`. */
  predicate HasExtension(name: string, ext: string) {
    EndsWith(Lower(name), ext)
  }

  /** The list comprehension `[f for f in names if f.lower().endswith(ext)]`:
      the entries that pass the test, each as often as it is listed. */
  function Matching(names: seq<string>, ext: string): (r: seq<string>)
    ensures forall f :: f in r <==> f in names && HasExtension(f, ext)
    ensures forall f :: multiset(r)[f] == if HasExtension(f, ext) then multiset(names)[f] else 0
  {
    if names == [] then []
    else
      assert names == [names[0]] + names[1..];
      (if HasExtension(names[0], ext) then [names[0]] else []) + Matching(names[1..], ext)
  }

  /** `s.rfind(c)`: the index of the last occurrence of `c`, or -1. */
  function LastIndexOf(s: string, c: char): (r: int)
    ensures -1 <= r < |s|
    ensures r >= 0 ==> s[r] == c
    ensures forall j :: r < j < |s| ==> s[j] != c
  {
    if s == [] then -1
    else if s[|s| - 1] == c then |s| - 1
    else LastIndexOf(s[..|s| - 1], c)
  }

  /** `os.path.basename(p)`: the text after the last separator. */
  function Basename(p: string): (r: string)
    ensures Sep !in r
    ensures |r| <= |p| && p[|p| - |r|..] == r
    ensures |r| == |p| || p[|p| - |r| - 1] == Sep
  {
    p[LastIndexOf(p, Sep) + 1..]
  }

  predicate HasNonDot(s: string) {
    exists i :: 0 <= i < |s| && s[i] != ExtSep
  }

  /** `os.path.splitext(p)`: split at the last dot of the final path
      component, unless every character of that component before the dot is
      itself a dot (a leading dot does not start an extension). */
  function SplitExt(p: string): (r: (string, string))
    ensures r.0 + r.1 == p
    ensures r.1 == [] || r.1[0] == ExtSep
    ensures forall i :: 1 <= i < |r.1| ==> r.1[i] != ExtSep && r.1[i] != Sep
  {
    var sepIndex := LastIndexOf(p, Sep);
    var dotIndex := LastIndexOf(p, ExtSep);
    if dotIndex > sepIndex && HasNonDot(p[sepIndex + 1..dotIndex]) then
      (p[..dotIndex], p[dotIndex..])
    else
      (p, [])
  }

  /** The base identifier: `os.path.splitext(p)[0]`. */
  function Stem(p: string): string {
    SplitExt(p).0
  }

  /** `os.path.join(a, b)` for two components: an absolute `b` replaces `a`,
      otherwise one separator is inserted unless `a` is empty or ends in one. */
  function Join(a: string, b: string): (r: string)
    ensures |b| <= |r| && r[|r| - |b|..] == b
    ensures |b| > 0 && b[0] == Sep ==> r == b
    ensures (|b| == 0 || b[0] != Sep) ==> |a| <= |r| && r[..|a|] == a
  {
    if |b| > 0 && b[0] == Sep then b
    else if a == [] || a[|a| - 1] == Sep then a + b
    else a + [Sep] + b
  }

  // ---------------------------------------------------------------------------
  // Lemmas

  /** The last occurrence is pinned down by one occurrence with none after it. */
  lemma LastIndexOfAt(s: string, c: char, k: int)
    requires -1 <= k < |s|
    requires k >= 0 ==> s[k] == c
    requires forall j :: k < j < |s| ==> s[j] != c
    ensures LastIndexOf(s, c) == k
  {
  }

  /** The last occurrence in a concatenation lies in the right part when the
      right part has one, and is the left part's otherwise. */
  lemma {:induction false} LastIndexOfAppend(a: string, b: string, c: char)
    ensures LastIndexOf(a + b, c) == if c in b then |a| + LastIndexOf(b, c) else LastIndexOf(a, c)
  {
    if b == [] {
      assert a + b == a;
    } else if b[|b| - 1] == c {
    } else {
      assert (a + b)[..|a + b| - 1] == a + b[..|b| - 1];
      LastIndexOfAppend(a, b[..|b| - 1], c);
      assert c in b <==> c in b[..|b| - 1] by {
        if c in b {
          var k :| 0 <= k < |b| && b[k] == c;
          assert b[..|b| - 1][k] == c;
        }
      }
    }
  }

  /** `basename(d + "/" + n) == basename(n)`: the directory part never
      reaches the base name. */
  lemma BasenameDropsDirectory(d: string, n: string)
    ensures Basename(d + [Sep] + n) == Basename(n)
  {
    LastIndexOfAppend(d + [Sep], n, Sep);
    if Sep !in n {
      LastIndexOfAt(d + [Sep], Sep, |d|);
      LastIndexOfAt(n, Sep, -1);
    }
  }

  /** Lower-casing distributes over concatenation. */
  lemma LowerAppend(a: string, b: string)
    ensures Lower(a + b) == Lower(a) + Lower(b)
  {
  }

  /** Joining a name that has no separator and taking the base name gives
      the name back. */
  lemma BasenameOfJoin(a: string, b: string)
    requires Sep !in b
    ensures Basename(Join(a, b)) == b
  {
    var r := Join(a, b);
    if a == [] {
      LastIndexOfAt(r, Sep, -1);
    } else if a[|a| - 1] == Sep {
      LastIndexOfAt(r, Sep, |a| - 1);
    } else {
      LastIndexOfAt(r, Sep, |a|);
    }
  }

  /** `splitext` finds an extension exactly when the final component has a
      dot with some non-dot character before it. */
  lemma SplitExtFindsExtension(p: string)
    ensures SplitExt(p).1 != [] <==>
      exists i, j :: LastIndexOf(p, Sep) < i < j < |p| && p[i] != ExtSep && p[j] == ExtSep
  {
    forall i, j | LastIndexOf(p, Sep) < i < j < |p| && p[i] != ExtSep && p[j] == ExtSep
      ensures SplitExt(p).1 != []
    {
      ExtensionAfterNonDot(p, i, j);
    }
    if SplitExt(p).1 != [] {
      var i, j := NonDotBeforeExtension(p);
    }
  }

  lemma NonDotBeforeExtension(p: string) returns (i: int, j: int)
    requires SplitExt(p).1 != []
    ensures LastIndexOf(p, Sep) < i < j < |p| && p[i] != ExtSep && p[j] == ExtSep
  {
    var sepIndex := LastIndexOf(p, Sep);
    var dotIndex := LastIndexOf(p, ExtSep);
    var name := p[sepIndex + 1..dotIndex];
    assert HasNonDot(name);
    var k :| 0 <= k < |name| && name[k] != ExtSep;
    i, j := sepIndex + 1 + k, dotIndex;
  }

  lemma ExtensionAfterNonDot(p: string, i: int, j: int)
    requires LastIndexOf(p, Sep) < i < j < |p| && p[i] != ExtSep && p[j] == ExtSep
    ensures SplitExt(p).1 != []
  {
    var sepIndex := LastIndexOf(p, Sep);
    var dotIndex := LastIndexOf(p, ExtSep);
    assert j <= dotIndex;
    var name := p[sepIndex + 1..dotIndex];
    assert name[i - sepIndex - 1] == p[i];
    assert HasNonDot(name);
  }

  /** Appending a single-dot extension to a name that has no separator and
      some non-dot character splits back into that name and extension. */
  lemma SplitExtAppend(s: string, e: string)
    requires Sep !in s && HasNonDot(s)
    requires |e| >= 1 && e[0] == ExtSep
    requires forall i :: 1 <= i < |e| ==> e[i] != ExtSep && e[i] != Sep
    ensures SplitExt(s + e) == (s, e)
  {
    var p := s + e;
    LastIndexOfAt(p, Sep, -1);
    LastIndexOfAt(p, ExtSep, |s|);
    assert p[0..|s|] == s;
  }

  /** The base identifier of a name that has no separator and some non-dot
      character again has both, and re-extended with `.txt` it is the
      base identifier of the result. */
  lemma StemKeepsIdentity(w: string)
    requires Sep !in w && HasNonDot(w)
    ensures Sep !in Stem(w) && HasNonDot(Stem(w))
    ensures Stem(Stem(w) + ".txt") == Stem(w)
  {
    LastIndexOfAt(w, Sep, -1);
    var dotIndex := LastIndexOf(w, ExtSep);
    if dotIndex > -1 && HasNonDot(w[0..dotIndex]) {
      assert Stem(w) == w[0..dotIndex];
    }
    assert IsPlainExtension(".txt");
    AppendExtension(Stem(w), ".txt");
  }

  /** Filtering a concatenation filters each part, in order. */
  lemma {:induction false} MatchingAppend(a: seq<string>, b: seq<string>, ext: string)
    ensures Matching(a + b, ext) == Matching(a, ext) + Matching(b, ext)
  {
    if a == [] {
      assert a + b == b;
    } else {
      assert (a + b)[1..] == a[1..] + b;
      MatchingAppend(a[1..], b, ext);
    }
  }

  /** Joining a directory that does not end in a separator with a relative
      name inserts exactly one separator. */
  lemma JoinInside(a: string, b: string)
    requires |a| > 0 && a[|a| - 1] != Sep && |b| > 0 && b[0] != Sep
    ensures Join(a, b) == a + [Sep] + b
  {
  }

  /** The stem of a separator-free name is separator-free. */
  lemma StemKeepsNoSep(name: string)
    requires Sep !in name
    ensures Sep !in Stem(name)
  {
    assert name == Stem(name) + SplitExt(name).1;
  }

  /** A separator-free text and a relative suffix placed in a directory:
      the directory, one separator, the text, then the suffix. */
  lemma JoinThen(dir: string, s: string, suffix: string)
    requires |dir| > 0 && dir[|dir| - 1] != Sep
    requires Sep !in s && |suffix| > 0 && suffix[0] != Sep
    ensures Join(dir, s + suffix) == dir + [Sep] + s + suffix
  {
    if |s| > 0 {
      assert (s + suffix)[0] == s[0];
    } else {
      assert s + suffix == suffix;
    }
    JoinInside(dir, s + suffix);
    assert dir + [Sep] + (s + suffix) == dir + [Sep] + s + suffix;
  }

  /** A stem and a suffix placed in a directory: the directory, one
      separator, the stem, then the suffix. */
  lemma JoinStem(dir: string, name: string, suffix: string)
    requires |dir| > 0 && dir[|dir| - 1] != Sep
    requires Sep !in name && |suffix| > 0 && suffix[0] != Sep
    ensures Join(dir, Stem(name) + suffix) == dir + [Sep] + Stem(name) + suffix
  {
    StemKeepsNoSep(name);
    JoinThen(dir, Stem(name), suffix);
  }

  /** A listing whose every entry passes the test is its own work list. */
  lemma {:induction false} MatchingAll(names: seq<string>, ext: string)
    requires forall f :: f in names ==> HasExtension(f, ext)
    ensures Matching(names, ext) == names
  {
    if names != [] {
      MatchingAll(names[1..], ext);
    }
  }

  /** The first entry of the filtered list is the first listed entry that
      passes the test. */
  lemma {:induction false} FirstMatch(names: seq<string>, ext: string) returns (i: nat)
    requires Matching(names, ext) != []
    ensures i < |names| && names[i] == Matching(names, ext)[0] && HasExtension(names[i], ext)
    ensures forall j :: 0 <= j < i ==> !HasExtension(names[j], ext)
  {
    if HasExtension(names[0], ext) {
      i := 0;
    } else {
      assert Matching(names, ext) == Matching(names[1..], ext);
      var k := FirstMatch(names[1..], ext);
      i := k + 1;
      forall j | 0 <= j < i
        ensures !HasExtension(names[j], ext)
      {
        if j > 0 {
          assert names[j] == names[1..][j - 1];
        }
      }
    }
  }

  /** The selection test ignores case: any name ending in `.TXT` passes
      the `.txt` test. */
  lemma UpperCaseExtensionSelected(s: string)
    ensures HasExtension(s + ".TXT", ".txt")
  {
    LowerAppend(s, ".TXT");
    assert Lower(".TXT") == ".txt";
    assert Lower(s + ".TXT")[|s|..] == ".txt";
  }

  /** Any name ending in another extension (here `.md`) fails the `.txt`
      test. */
  lemma OtherExtensionRejected(s: string)
    ensures !HasExtension(s + ".md", ".txt")
  {
    LowerAppend(s, ".md");
    var l := Lower(s + ".md");
    assert l[|l| - 1] == 'd';
  }

  /** A name that merely contains the extension before another one
      (`<s>.txt.bak`) fails the test: only the end of the name counts. */
  lemma InnerExtensionRejected(s: string)
    ensures !HasExtension(s + ".txt.bak", ".txt")
  {
    LowerAppend(s, ".txt.bak");
    var l := Lower(s + ".txt.bak");
    assert l[|l| - 1] == 'k';
  }

  /** Worked case of `splitext`: the last dot splits. */
  lemma SplitAtLastDot()
    ensures SplitExt("a.b.txt") == ("a.b", ".txt")
  {
    assert "a.b.txt" == "a.b" + ".txt" && "a.b"[0] != ExtSep;
    SplitExtAppend("a.b", ".txt");
  }

  /** A leading dot does not start an extension: a hidden name with no
      further dot and no separator (`.txt`, `.bashrc`) has none. */
  lemma LeadingDotKept(s: string)
    requires ExtSep !in s && Sep !in s
    ensures SplitExt([ExtSep] + s) == ([ExtSep] + s, [])
  {
    var p := [ExtSep] + s;
    assert forall j :: 0 < j < |p| ==> p[j] == s[j - 1];
    LastIndexOfAt(p, Sep, -1);
    LastIndexOfAt(p, ExtSep, 0);
  }

  /** The hidden name `.txt`, which passes the summarizer's test, keeps
      its whole name as its stem. */
  lemma HiddenTranscriptKept()
    ensures SplitExt(".txt") == (".txt", "")
  {
    assert ".txt" == [ExtSep] + "txt";
    LeadingDotKept("txt");
  }

  /** Worked case of `splitext`: a dot in a directory name does not split. */
  lemma DirectoryDotKept()
    ensures SplitExt("dir.d/file") == ("dir.d/file", "")
  {
    LastIndexOfAt("dir.d/file", Sep, 5);
    LastIndexOfAt("dir.d/file", ExtSep, 3);
  }

  /** Worked case: a bare name keeps its base name, and `talk.wav` has the
      base identifier `talk`. */
  lemma TalkSplits()
    ensures Basename("talk.wav") == "talk.wav" && Stem("talk.wav") == "talk"
  {
    LastIndexOfAt("talk.wav", Sep, -1);
    assert "talk.wav" == "talk" + ".wav" && "talk"[0] != ExtSep;
    SplitExtAppend("talk", ".wav");
  }

  /** An extension as the stages spell them: a dot followed by lower-case
      characters that are neither dots nor separators. */
  predicate IsPlainExtension(e: string) {
    |e| >= 2 && e[0] == ExtSep &&
    forall i :: 1 <= i < |e| ==> e[i] != ExtSep && e[i] != Sep && !IsUpper(e[i])
  }

  /** Giving a base identifier a plain extension yields a name that passes
      the selection test for that extension and splits back into the two. */
  lemma AppendExtension(s: string, e: string)
    requires Sep !in s && HasNonDot(s) && IsPlainExtension(e)
    ensures Sep !in s + e
    ensures HasExtension(s + e, e)
    ensures SplitExt(s + e) == (s, e)
  {
    LowerAppend(s, e);
    assert Lower(e) == e;
    assert Lower(s + e)[|s|..] == e;
    SplitExtAppend(s, e);
  }

  /** A name that passes the selection test for a plain extension has a
      non-dot character (its last one). */
  lemma SelectedHasNonDot(name: string, e: string)
    requires IsPlainExtension(e) && HasExtension(name, e)
    ensures HasNonDot(name)
  {
    var n := |name|;
    assert Lower(name)[n - 1] == e[|e| - 1];
    assert name[n - 1] != ExtSep;
  }

  /** A one-entry listing whose entry passes the test is its own work list. */
  lemma MatchingSingle(f: string, e: string)
    requires HasExtension(f, e)
    ensures Matching([f], e) == [f]
  {
    assert [f][1..] == [];
  }

  /** Names differing only in the case of their extension (`a.txt`,
      `a.TXT`) share their base identifier and pass the same selection tests. */
  lemma CaseVariantsShareStem(s: string, e1: string, e2: string, ext: string)
    requires Sep !in s && HasNonDot(s)
    requires |e1| >= 1 && e1[0] == ExtSep && forall i :: 1 <= i < |e1| ==> e1[i] != ExtSep && e1[i] != Sep
    requires |e2| >= 1 && e2[0] == ExtSep && forall i :: 1 <= i < |e2| ==> e2[i] != ExtSep && e2[i] != Sep
    requires Lower(e1) == Lower(e2)
    ensures Stem(s + e1) == s && Stem(s + e2) == s
    ensures HasExtension(s + e1, ext) <==> HasExtension(s + e2, ext)
  {
    SplitExtAppend(s, e1);
    SplitExtAppend(s, e2);
    LowerAppend(s, e1);
    LowerAppend(s, e2);
  }
}
