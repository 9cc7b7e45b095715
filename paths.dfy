/** What `watch` does to a path before using it as a key: strip every
    trailing separator, then decide whether the path is one of those that are
    never polled (`node_modules`, dot-files and dot-directories). */
module Paths {
  import opened Base

  /** The path with all trailing `sep` characters removed. */
  function Trimmed(s: string, sep: char): (r: string)
    ensures r <= s
    ensures r == [] || r[|r| - 1] != sep
    ensures forall i :: |r| <= i < |s| ==> s[i] == sep
  {
    if s != [] && s[|s| - 1] == sep then Trimmed(s[..|s| - 1], sep) else s
  }

  /** The `while` loop of `watch` that slices one separator off at a time. */
  method StripTrailing(s: string, sep: char) returns (r: string)
    ensures r == Trimmed(s, sep)
  {
    r := s;
    while r != [] && r[|r| - 1] == sep
      invariant Trimmed(r, sep) == Trimmed(s, sep)
      decreases |r|
    {
      r := r[..|r| - 1];
    }
  }

  /** Spellings that differ only in trailing separators give the same key,
      so `watch("a/")` and `watch("a")` share one watcher. */
  lemma {:induction false} TrimmedAbsorbsSeparators(s: string, sep: char, n: nat)
    ensures Trimmed(s + Repeat(sep, n), sep) == Trimmed(s, sep)
  {
    if n > 0 {
      var t := s + Repeat(sep, n);
      assert t[..|t| - 1] == s + Repeat(sep, n - 1);
      TrimmedAbsorbsSeparators(s, sep, n - 1);
    } else {
      assert s + Repeat(sep, n) == s;
    }
  }

  /** Trimming a key again changes nothing. */
  lemma TrimmedIdempotent(s: string, sep: char)
    ensures Trimmed(Trimmed(s, sep), sep) == Trimmed(s, sep)
  {
  }

  // ---------------------------------------------------------------------
  // The test /node_modules|^\.|[\/\\]\./i of `watch`.

  /** ASCII lower-casing: under the `i` flag without `u`, only ASCII letters
      match the letters of `node_modules` case-insensitively. */
  function Lower(c: char): (l: char)
    // the result is never an upper-case ASCII letter, and only those change
    ensures !('A' <= l <= 'Z')
    ensures l != c ==> 'A' <= c <= 'Z' && l as int == c as int + 32
  {
    if 'A' <= c <= 'Z' then (c as int + 32) as char else c
  }

  predicate StartsWithFolded(s: string, pat: string)
  {
    |pat| <= |s| && forall i :: 0 <= i < |pat| ==> Lower(s[i]) == pat[i]
  }

  /** `pat` (lower case) occurs somewhere in `s`, ignoring ASCII case. */
  predicate ContainsFolded(s: string, pat: string)
    decreases |s|
  {
    StartsWithFolded(s, pat) || (s != [] && ContainsFolded(s[1..], pat))
  }

  predicate IsSeparator(c: char)
  {
    c == '/' || c == '\\'
  }

  /** Some `/` or `\` is directly followed by a `.`. */
  predicate HasHiddenSegment(s: string)
    decreases |s|
  {
    |s| >= 2 && ((IsSeparator(s[0]) && s[1] == '.') || HasHiddenSegment(s[1..]))
  }

  /** `pat` matches `s` at position `i`, ignoring ASCII case. */
  predicate FoldedAt(s: string, pat: string, i: int)
  {
    0 <= i <= |s| && StartsWithFolded(s[i..], pat)
  }

  /** A separator at `i` is directly followed by a `.`. */
  predicate HiddenAt(s: string, i: int)
  {
    0 <= i < |s| - 1 && IsSeparator(s[i]) && s[i + 1] == '.'
  }

  /** Paths `watch` registers but never starts polling: the path matches the
      regular expression at some position. */
  function IsExcluded(p: string): (b: bool)
    ensures b <==> (exists i :: FoldedAt(p, "node_modules", i))
                   || (p != [] && p[0] == '.')
                   || (exists i :: HiddenAt(p, i))
  {
    ContainsFoldedAt(p, "node_modules");
    HiddenSegmentAt(p);
    ContainsFolded(p, "node_modules") || (p != [] && p[0] == '.') || HasHiddenSegment(p)
  }

  /** The scan of `ContainsFolded` finds every match position. */
  lemma {:induction false} ContainsFoldedAt(s: string, pat: string)
    ensures ContainsFolded(s, pat) <==> exists i :: FoldedAt(s, pat, i)
    decreases |s|
  {
    assert s[0..] == s;
    if !StartsWithFolded(s, pat) && s != [] {
      ContainsFoldedAt(s[1..], pat);
      forall j | FoldedAt(s[1..], pat, j)
        ensures FoldedAt(s, pat, j + 1)
      {
        assert s[1..][j..] == s[j + 1..];
      }
      forall i | FoldedAt(s, pat, i)
        ensures FoldedAt(s[1..], pat, i - 1)
      {
        assert s[1..][i - 1..] == s[i..];
      }
    } else if StartsWithFolded(s, pat) {
      assert FoldedAt(s, pat, 0);
    }
  }

  /** The scan of `HasHiddenSegment` finds every separator-dot pair. */
  lemma {:induction false} HiddenSegmentAt(s: string)
    ensures HasHiddenSegment(s) <==> exists i :: HiddenAt(s, i)
    decreases |s|
  {
    if |s| >= 2 && !(IsSeparator(s[0]) && s[1] == '.') {
      HiddenSegmentAt(s[1..]);
      forall j | HiddenAt(s[1..], j)
        ensures HiddenAt(s, j + 1)
      {
      }
      forall i | HiddenAt(s, i)
        ensures HiddenAt(s[1..], i - 1)
      {
      }
    } else if |s| >= 2 {
      assert HiddenAt(s, 0);
    }
  }

  lemma {:induction false} ContainsFoldedExtends(s: string, pat: string, q: string)
    requires ContainsFolded(s, pat)
    ensures ContainsFolded(s + q, pat)
    decreases |s|
  {
    if StartsWithFolded(s, pat) {
      assert forall i :: 0 <= i < |pat| ==> (s + q)[i] == s[i];
    } else {
      assert (s + q)[1..] == s[1..] + q;
      ContainsFoldedExtends(s[1..], pat, q);
    }
  }

  lemma {:induction false} HiddenSegmentExtends(s: string, q: string)
    requires HasHiddenSegment(s)
    ensures HasHiddenSegment(s + q)
    decreases |s|
  {
    if !(IsSeparator(s[0]) && s[1] == '.') {
      assert (s + q)[1..] == s[1..] + q;
      HiddenSegmentExtends(s[1..], q);
    }
  }

  /** Everything below an excluded path is excluded too. */
  lemma ExcludedIsInherited(p: string, q: string)
    requires IsExcluded(p)
    ensures IsExcluded(p + q)
  {
    if ContainsFolded(p, "node_modules") {
      ContainsFoldedExtends(p, "node_modules", q);
    } else if HasHiddenSegment(p) {
      HiddenSegmentExtends(p, q);
    }
  }

  lemma {:induction false} HiddenSegmentAfter(dir: string, rest: string)
    requires HasHiddenSegment(rest)
    ensures HasHiddenSegment(dir + rest)
    decreases |dir|
  {
    if dir != [] {
      assert (dir + rest)[1..] == dir[1..] + rest;
      HiddenSegmentAfter(dir[1..], rest);
    } else {
      assert dir + rest == rest;
    }
  }

  /** A file or directory whose name starts with `.`, anywhere in the path,
      makes the path excluded, whichever of the two separators precedes it. */
  lemma DotNameExcluded(dir: string, sep: char, name: string)
    requires IsSeparator(sep)
    requires name != [] && name[0] == '.'
    ensures IsExcluded(dir + [sep] + name)
  {
    assert HasHiddenSegment([sep] + name);
    assert dir + [sep] + name == dir + ([sep] + name);
    HiddenSegmentAfter(dir, [sep] + name);
  }
}
