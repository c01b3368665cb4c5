/** The functions of Go's `strings` package that the scrapers call, on byte strings
    (one `char` per byte). Only the ASCII behaviour of `strings.Title` is modelled. */
module GoStrings {

  /** Appending is associative; stated for any element type, so that nothing about the
      elements has to be looked into. */
  lemma AppendAssoc<T>(a: seq<T>, b: seq<T>, c: seq<T>)
    ensures a + b + c == a + (b + c)
  {
  }

  /** Cutting a sequence in two and joining the halves gives it back. */
  lemma SliceJoin<T>(s: seq<T>, k: nat)
    requires k <= |s|
    ensures s[..k] + s[k..] == s
  {
  }

  /** A sequence that starts with `p` is `p` followed by the rest. */
  lemma PrefixJoin<T>(p: seq<T>, s: seq<T>)
    requires p <= s
    ensures s == p + s[|p|..]
  {
    assert s[..|p|] == p;
    SliceJoin(s, |p|);
  }

  /** The cutset `"\n\t "` that both scrapers pass to `strings.Trim`. */
  const Whitespace: set<char> := {'\n', '\t', ' '}

  /** `strings.TrimLeft(s, cutset)`: drops the longest prefix made of cutset bytes. */
  function TrimLeft(s: string, cutset: set<char>): (r: string)
    ensures |r| <= |s|
    decreases |s|
  {
    if s != [] && s[0] in cutset then TrimLeft(s[1..], cutset) else s
  }

  /** What `TrimLeft` leaves is a suffix of `s` that does not start with a cutset byte,
      and every byte it drops is in the cutset. */
  lemma {:induction false} TrimLeftSpec(s: string, cutset: set<char>)
    ensures var r := TrimLeft(s, cutset);
      && r == s[|s| - |r|..]
      && (r != [] ==> r[0] !in cutset)
      && forall i :: 0 <= i < |s| - |r| ==> s[i] in cutset
    decreases |s|
  {
    if s != [] && s[0] in cutset {
      TrimLeftSpec(s[1..], cutset);
    }
  }

  /** `strings.TrimRight(s, cutset)`: drops the longest suffix made of cutset bytes. */
  function TrimRight(s: string, cutset: set<char>): (r: string)
    ensures |r| <= |s|
    decreases |s|
  {
    if s != [] && s[|s| - 1] in cutset then TrimRight(s[..|s| - 1], cutset) else s
  }

  /** What `TrimRight` leaves is a prefix of `s` that does not end with a cutset byte,
      and every byte it drops is in the cutset. */
  lemma {:induction false} TrimRightSpec(s: string, cutset: set<char>)
    ensures var r := TrimRight(s, cutset);
      && r == s[..|r|]
      && (r != [] ==> r[|r| - 1] !in cutset)
      && forall i :: |r| <= i < |s| ==> s[i] in cutset
    decreases |s|
  {
    if s != [] && s[|s| - 1] in cutset {
      TrimRightSpec(s[..|s| - 1], cutset);
    }
  }

  /** `s[i..j]` is what is left of `s` once a prefix and a suffix made only of cutset
      bytes are removed. */
  predicate CutsetAround(s: string, cutset: set<char>, i: int, j: int)
  {
    0 <= i <= j <= |s|
    && (forall k :: 0 <= k < i ==> s[k] in cutset)
    && (forall k :: j <= k < |s| ==> s[k] in cutset)
  }

  /** `strings.Trim(s, cutset)`: `TrimLeft` then `TrimRight`. */
  function Trim(s: string, cutset: set<char>): (r: string)
    ensures |r| <= |s|
  {
    TrimRight(TrimLeft(s, cutset), cutset)
  }

  /** `Trim` leaves the substring of `s` between a prefix and a suffix made only of
      cutset bytes, and that substring neither starts nor ends with a cutset byte. */
  lemma TrimSpec(s: string, cutset: set<char>)
    ensures exists i, j :: CutsetAround(s, cutset, i, j) && Trim(s, cutset) == s[i..j]
    ensures var r := Trim(s, cutset); r != [] ==> r[0] !in cutset && r[|r| - 1] !in cutset
  {
    var left := TrimLeft(s, cutset);
    var r := TrimRight(left, cutset);
    TrimLeftSpec(s, cutset);
    TrimRightSpec(left, cutset);
    var i := |s| - |left|;
    assert r == s[i..i + |r|];
    assert CutsetAround(s, cutset, i, i + |r|);
  }

  /** Trimming is idempotent: a trimmed string has nothing left to trim. */
  lemma TrimIdempotent(s: string, cutset: set<char>)
    ensures Trim(Trim(s, cutset), cutset) == Trim(s, cutset)
  {
    var r := Trim(s, cutset);
    TrimSpec(s, cutset);
    assert TrimLeft(r, cutset) == r;
    assert TrimRight(r, cutset) == r;
  }

  /** TrimLeft stops at the first byte outside the cutset. */
  lemma {:induction false} TrimLeftPadded(a: string, x: string, cutset: set<char>)
    requires forall i :: 0 <= i < |a| ==> a[i] in cutset
    requires x == [] || x[0] !in cutset
    ensures TrimLeft(a + x, cutset) == x
    decreases |a|
  {
    if a != [] {
      assert (a + x)[1..] == a[1..] + x;
      TrimLeftPadded(a[1..], x, cutset);
    } else {
      assert a + x == x;
    }
  }

  /** TrimRight stops at the last byte outside the cutset. */
  lemma {:induction false} TrimRightPadded(x: string, b: string, cutset: set<char>)
    requires forall i :: 0 <= i < |b| ==> b[i] in cutset
    requires x == [] || x[|x| - 1] !in cutset
    ensures TrimRight(x + b, cutset) == x
    decreases |b|
  {
    if b != [] {
      assert (x + b)[..|x + b| - 1] == x + b[..|b| - 1];
      TrimRightPadded(x, b[..|b| - 1], cutset);
    } else {
      assert x + b == x;
    }
  }

  /** Padding a string whose ends are outside the cutset with cutset bytes on either
      side is exactly what `Trim` undoes. */
  lemma TrimPadded(a: string, x: string, b: string, cutset: set<char>)
    requires forall i :: 0 <= i < |a| ==> a[i] in cutset
    requires forall i :: 0 <= i < |b| ==> b[i] in cutset
    requires x == [] || (x[0] !in cutset && x[|x| - 1] !in cutset)
    ensures Trim(a + x + b, cutset) == x
  {
    if x == [] {
      assert a + x + b == a + b;
      TrimLeftPadded(a + b, [], cutset);
      assert a + b + [] == a + b;
    } else {
      assert a + x + b == a + (x + b);
      TrimLeftPadded(a, x + b, cutset);
      TrimRightPadded(x, b, cutset);
    }
  }

  /** `strings.ReplaceAll(s, string(c), "")`: every occurrence of the byte `c` deleted. */
  function RemoveAll(s: string, c: char): (r: string)
    ensures c !in r
    ensures |r| <= |s|
    ensures c !in s ==> r == s
  {
    if s == [] then []
    else (if s[0] == c then [] else [s[0]]) + RemoveAll(s[1..], c)
  }

  /** Deleting a byte distributes over concatenation, so where the deleted bytes stood
      does not matter. */
  lemma {:induction false} RemoveAllAppend(a: string, b: string, c: char)
    ensures RemoveAll(a + b, c) == RemoveAll(a, c) + RemoveAll(b, c)
  {
    if a != [] {
      assert (a + b)[1..] == a[1..] + b;
      RemoveAllAppend(a[1..], b, c);
    } else {
      assert a + b == b;
    }
  }

  /** `sub` occurs in `s` at index `j`. */
  predicate OccursAt(s: string, sub: string, j: int)
  {
    0 <= j && j + |sub| <= |s| && s[j..j + |sub|] == sub
  }

  /** The first occurrence of `sub` in `s` at or after `from`, or -1. */
  function IndexFrom(s: string, sub: string, from: nat): (k: int)
    requires from <= |s|
    ensures k == -1 || (from <= k && OccursAt(s, sub, k))
    ensures forall j :: from <= j && (k == -1 || j < k) ==> !OccursAt(s, sub, j)
    decreases |s| - from
  {
    if from + |sub| > |s| then -1
    else if s[from..from + |sub|] == sub then from
    else IndexFrom(s, sub, from + 1)
  }

  /** `strings.Index(s, sub)`: the first occurrence of `sub` in `s`, or -1. */
  function Index(s: string, sub: string): (k: int)
    ensures k == -1 || OccursAt(s, sub, k)
    ensures forall j :: 0 <= j && (k == -1 || j < k) ==> !OccursAt(s, sub, j)
  {
    IndexFrom(s, sub, 0)
  }

  /** `strings.Replace(s, marker, "", 1)`: the first occurrence of `marker` cut out; putting
      `marker` back at the cut gives `s` again. */
  function RemoveFirst(s: string, marker: string): (r: string)
    ensures Index(s, marker) == -1 ==> r == s
    ensures Index(s, marker) >= 0 ==>
              |r| == |s| - |marker| && s == r[..Index(s, marker)] + marker + r[Index(s, marker)..]
  {
    var k := Index(s, marker);
    if k < 0 then s
    else
      var r := s[..k] + s[k + |marker|..];
      assert r[..k] == s[..k] && r[k..] == s[k + |marker|..];
      assert s == s[..k] + s[k..k + |marker|] + s[k + |marker|..];
      r
  }

  /** The prefix of `s` before the first occurrence of `sep` holds no `sep`. */
  lemma PrefixBeforeIndex(s: string, sep: string, k: nat)
    requires k <= |s|
    requires |sep| > 0
    requires forall j :: 0 <= j < k ==> !OccursAt(s, sep, j)
    ensures Index(s[..k], sep) == -1
  {
    var p := s[..k];
    var i := Index(p, sep);
    if i >= 0 {
      assert p[i..i + |sep|] == s[i..i + |sep|];
      assert OccursAt(s, sep, i);
    }
  }

  /** `strings.Split(s, sep)` for a non-empty separator: the pieces between the
      non-overlapping occurrences of `sep`, scanning from the left. There is always at
      least one piece. */
  function Split(s: string, sep: string): (parts: seq<string>)
    requires |sep| > 0
    ensures |parts| >= 1
    decreases |s|
  {
    var k := Index(s, sep);
    if k < 0 then [s] else [s[..k]] + Split(s[k + |sep|..], sep)
  }

  /** No piece of a split contains the separator. */
  lemma {:induction false} SplitPiecesFree(s: string, sep: string)
    requires |sep| > 0
    ensures forall i :: 0 <= i < |Split(s, sep)| ==> Index(Split(s, sep)[i], sep) == -1
    decreases |s|
  {
    var k := Index(s, sep);
    if k >= 0 {
      PrefixBeforeIndex(s, sep, k);
      SplitPiecesFree(s[k + |sep|..], sep);
    }
  }

  /** `strings.Join(parts, sep)`. */
  function Join(parts: seq<string>, sep: string): string
  {
    if parts == [] then ""
    else if |parts| == 1 then parts[0]
    else parts[0] + sep + Join(parts[1..], sep)
  }

  /** Splitting loses nothing: joining the pieces with the separator gives `s` back. */
  lemma {:induction false} JoinSplit(s: string, sep: string)
    requires |sep| > 0
    ensures Join(Split(s, sep), sep) == s
    decreases |s|
  {
    var k := Index(s, sep);
    if k >= 0 {
      var rest := s[k + |sep|..];
      var tail := Split(rest, sep);
      JoinSplit(rest, sep);
      var parts := [s[..k]] + tail;
      assert Split(s, sep) == parts;
      assert parts[0] == s[..k] && parts[1..] == tail;
      assert Join(parts, sep) == s[..k] + sep + rest;
      assert OccursAt(s, sep, k);
      assert s == s[..k] + s[k..k + |sep|] + rest;
    }
  }

  /** An empty string splits into exactly one, empty, piece. */
  lemma SplitEmpty(sep: string)
    requires |sep| > 0
    ensures Split("", sep) == [""]
  {
  }

  /** The word boundary test of `strings.Title` for ASCII: everything but letters, digits
      and `_` separates words. Bytes above 0x7F belong to multi-byte runes, taken here as
      letters. */
  predicate IsSeparator(c: char)
  {
    if c as int <= 0x7F then
      !('0' <= c <= '9' || 'a' <= c <= 'z' || 'A' <= c <= 'Z' || c == '_')
    else false
  }

  /** `unicode.ToTitle` on ASCII: lower-case letters become upper-case. */
  function ToTitle(c: char): (t: char)
    ensures 'a' <= c <= 'z' ==> 'A' <= t <= 'Z' && t as int == c as int - 32
    ensures !('a' <= c <= 'z') ==> t == c
    ensures IsSeparator(t) == IsSeparator(c)
  {
    if 'a' <= c <= 'z' then (c as int - 32) as char else c
  }

  /** `strings.Title` continued after a byte `prev`. */
  function TitleAfter(s: string, prev: char): (r: string)
    ensures |r| == |s|
    ensures forall i :: 0 <= i < |s| ==>
              r[i] == if IsSeparator(if i == 0 then prev else s[i - 1]) then ToTitle(s[i]) else s[i]
    decreases |s|
  {
    if s == [] then []
    else [if IsSeparator(prev) then ToTitle(s[0]) else s[0]] + TitleAfter(s[1..], s[0])
  }

  /** `strings.Title(s)`: every byte that starts a word is upper-cased (the string is
      taken to begin after a space). */
  function Title(s: string): (r: string)
    ensures |r| == |s|
    ensures forall i :: 0 <= i < |s| ==>
              r[i] == if i == 0 || IsSeparator(s[i - 1]) then ToTitle(s[i]) else s[i]
  {
    TitleAfter(s, ' ')
  }

  /** Title-casing again changes nothing, as long as the two runs start after bytes
      of the same kind. */
  lemma {:induction false} TitleAfterIdempotent(s: string, p: char, q: char)
    requires IsSeparator(p) == IsSeparator(q)
    ensures TitleAfter(TitleAfter(s, p), q) == TitleAfter(s, p)
    decreases |s|
  {
    if s != [] {
      var t := TitleAfter(s, p);
      assert t == [t[0]] + TitleAfter(s[1..], s[0]);
      assert t[1..] == TitleAfter(s[1..], s[0]);
      TitleAfterIdempotent(s[1..], s[0], t[0]);
    }
  }

  /** `strings.Title` is idempotent. */
  lemma TitleIdempotent(s: string)
    ensures Title(Title(s)) == Title(s)
  {
    TitleAfterIdempotent(s, ' ', ' ');
  }
}
