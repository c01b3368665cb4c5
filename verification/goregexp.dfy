/** The two regular expressions of the statistics scraper, on byte strings. In Go's
    `regexp` syntax `.` matches any character except a newline. */
module GoRegexp {

  /** The text `"tys"` followed by one more byte that is not a newline starts at `i`. */
  predicate TysAt(s: string, i: int)
  {
    0 <= i && i + 4 <= |s| && s[i..i + 3] == "tys" && s[i + 3] != '\n'
  }

  /** `regexp.MatchString("tys.", s)`: the pattern occurs anywhere in `s`. */
  predicate MatchesTys(s: string)
  {
    exists i | 0 <= i <= |s| - 4 :: TysAt(s, i)
  }

  /** A match of `tys.` needs four bytes. */
  lemma MatchesTysLength(s: string)
    requires MatchesTys(s)
    ensures |s| >= 4
  {
  }

  /** A match of `tys.` contains a `t`, so text without one never matches. */
  lemma MatchesTysHasT(s: string)
    requires MatchesTys(s)
    ensures 't' in s
  {
    var i :| 0 <= i <= |s| - 4 && TysAt(s, i);
    assert s[i] == s[i..i + 3][0];
  }

  /** The index of the first newline of `s`, or `|s|` when there is none. */
  function LineEnd(s: string): (n: nat)
    ensures n <= |s| && (n < |s| ==> s[n] == '\n')
  {
    if s == [] then 0
    else if s[0] == '\n' then 0
    else 1 + LineEnd(s[1..])
  }

  /** No newline comes before the line end. */
  lemma {:induction false} LineEndFirst(s: string)
    ensures forall i :: 0 <= i < LineEnd(s) ==> s[i] != '\n'
  {
    if s != [] && s[0] != '\n' {
      LineEndFirst(s[1..]);
      assert forall i :: 1 <= i < LineEnd(s) ==> s[i] == s[1..][i - 1];
    }
  }

  /** The last colon at an index from 1 up to (not including) `n`, or -1. */
  function LastColonBefore(s: string, n: nat): (k: int)
    requires n <= |s|
    ensures k == -1 || (1 <= k < n && s[k] == ':')
  {
    if n <= 1 then -1
    else if s[n - 1] == ':' then n - 1
    else LastColonBefore(s, n - 1)
  }

  /** No colon comes after the one found, up to `n`. */
  lemma {:induction false} LastColonBeforeLast(s: string, n: nat)
    requires n <= |s|
    ensures var k := LastColonBefore(s, n);
            forall j :: (if k == -1 then 1 else k + 1) <= j < n ==> s[j] != ':'
  {
    if n > 1 && s[n - 1] != ':' {
      LastColonBeforeLast(s, n - 1);
    }
  }

  /** `regexp.MustCompile("^.+:").FindString(s)`: the longest prefix of `s` that has at
      least one byte before its final colon and no newline, or `""` when there is none. */
  function FindColonPrefix(s: string): (m: string)
    ensures m == "" || (2 <= |m| <= |s| && m == s[..|m|] && m[|m| - 1] == ':')
  {
    var k := LastColonBefore(s, LineEnd(s));
    if k < 0 then "" else s[..k + 1]
  }

  /** The match holds no newline, and no colon follows it on the first line; with no
      match, the first line holds no colon after its first byte. */
  lemma FindColonPrefixSpec(s: string)
    ensures var m := FindColonPrefix(s);
            && (forall i :: 0 <= i < |m| ==> m[i] != '\n')
            && (forall j :: (if m == "" then 1 else |m|) <= j < LineEnd(s) ==> s[j] != ':')
  {
    LineEndFirst(s);
    LastColonBeforeLast(s, LineEnd(s));
  }
}
