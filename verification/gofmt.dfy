/** `fmt.Sscanf(link, "/profile/view,%d#char_%d", &p, &c)`, the only scan the ladder
    scraper makes, on byte strings. */
module GoFmt {
  import opened Results
  import opened GoStrconv
  import opened GoStrings

  /** The literal text before the first verb. */
  const ProfilePrefix: string := "/profile/view,"

  /** The literal text between the two verbs. */
  const CharMarker: string := "#char_"

  /** The ASCII white space a `%d` skips; a newline is not among it, since `Sscanf`
      treats a newline before a verb as an error. */
  predicate IsScanSpace(c: char)
  {
    c == ' ' || c == '\t' || c == '\r' || c == '\U{0B}' || c == '\U{0C}'
  }

  /** The scanner's space skipping before a `%d`: leading white space is dropped, and a
      newline met among it is an error. */
  function SkipSpace(s: string): (r: Result<string>)
    ensures r.Ok? ==> |r.value| <= |s| && r.value == s[|s| - |r.value|..]
    ensures r.Ok? ==> r.value == [] || (!IsScanSpace(r.value[0]) && r.value[0] != '\n')
    ensures s != [] && !IsScanSpace(s[0]) && s[0] != '\n' ==> r == Ok(s)
  {
    if s == [] then Ok(s)
    else if s[0] == '\n' then Err
    else if IsScanSpace(s[0]) then SkipSpace(s[1..])
    else Ok(s)
  }

  /** The number of decimal digits at the start of `s`. */
  function LeadingDigits(s: string): (n: nat)
    ensures n <= |s| && AllDigits(s[..n]) && (n < |s| ==> !IsDigit(s[n]))
  {
    if s != [] && IsDigit(s[0]) then
      assert s[..1 + LeadingDigits(s[1..])] == [s[0]] + s[1..][..LeadingDigits(s[1..])];
      1 + LeadingDigits(s[1..])
    else 0
  }

  /** The number a `%d` reads once white space is skipped: an optional sign, then at
      least one digit; the digits run as far as they go and must fit 64 bits. The result
      holds the value and the unread rest of the input. */
  function ScanNumber(t: string): (r: Result<(int, string)>)
    ensures r.Ok? ==> InRange(r.value.0, Bits64) && |r.value.1| < |t|
  {
    var signLen := if t != [] && (t[0] == '+' || t[0] == '-') then 1 else 0;
    var n := LeadingDigits(t[signLen..]);
    if n == 0 then Err
    else
      match ParseInt(t[..signLen + n], Bits64)
      case Err => Err
      case Ok(v) => Ok((v, t[signLen + n..]))
  }

  /** One `%d` into an `int` (64 bits): white space, then a number. */
  function ScanInt(s: string): (r: Result<(int, string)>)
    ensures r.Ok? ==> InRange(r.value.0, Bits64) && |r.value.1| < |s|
  {
    match SkipSpace(s)
    case Err => Err
    case Ok(t) => ScanNumber(t)
  }

  /** The part of the format after the first verb: the literal `#char_`, then the
      second number. Input left after it is ignored. */
  function ScanCharID(rest: string): (r: Result<int>)
    ensures r.Ok? ==> CharMarker <= rest && InRange(r.value, Bits64)
  {
    if !(CharMarker <= rest) then Err
    else
      match ScanInt(rest[|CharMarker|..])
      case Err => Err
      case Ok((c, _)) => Ok(c)
  }

  /** The part of the format after the literal prefix: a number, then the rest. */
  function ScanIDs(t: string): (r: Result<(int, int)>)
    ensures r.Ok? ==> InRange(r.value.0, Bits64) && InRange(r.value.1, Bits64)
  {
    match ScanInt(t)
    case Err => Err
    case Ok((p, rest)) =>
      match ScanCharID(rest)
      case Err => Err
      case Ok(c) => Ok((p, c))
  }

  /** `Sscanf(link, "/profile/view,%d#char_%d", ...)` with both verbs filled: each byte
      of literal text must match the input, and input left after the second number is
      ignored. Any mismatch, a missing number or an overflow is an error. */
  function ScanProfileLink(link: string): (r: Result<(int, int)>)
    ensures r.Ok? ==> ProfilePrefix <= link && InRange(r.value.0, Bits64) && InRange(r.value.1, Bits64)
  {
    if !(ProfilePrefix <= link) then Err else ScanIDs(link[|ProfilePrefix|..])
  }

  /** The link the game's ladder writes for a character. */
  function ProfileLink(p: int, c: int): string
  {
    ProfilePrefix + FormatInt(p) + CharMarker + FormatInt(c)
  }

  /** A run of digits followed by a non-digit (or by nothing) is exactly the leading
      digits. */
  lemma {:induction false} LeadingDigitsOfDigits(d: string, t: string)
    requires AllDigits(d)
    requires t == [] || !IsDigit(t[0])
    ensures LeadingDigits(d + t) == |d|
    decreases |d|
  {
    if d != [] {
      assert (d + t)[0] == d[0];
      assert (d + t)[1..] == d[1..] + t;
      LeadingDigitsOfDigits(d[1..], t);
    }
  }

  /** The digits of a formatted number are all leading digits, up to the first
      non-digit that follows. */
  lemma LeadingDigitsOfFormat(n: nat, t: string)
    requires t == [] || !IsDigit(t[0])
    ensures LeadingDigits(FormatDecimal(n) + t) == |FormatDecimal(n)|
  {
    LeadingDigitsOfDigits(FormatDecimal(n), t);
  }

  /** What `ScanNumber` does with text that starts with `signLen` sign bytes followed by
      exactly `n` digits. */
  lemma ScanNumberToken(s: string, signLen: nat, n: nat)
    requires signLen == if s != [] && (s[0] == '+' || s[0] == '-') then 1 else 0
    requires n > 0 && LeadingDigits(s[signLen..]) == n
    ensures ScanNumber(s) == match ParseInt(s[..signLen + n], Bits64)
                             case Err => Err
                             case Ok(v) => Ok((v, s[signLen + n..]))
  {
  }

  /** `ScanNumber` reads back exactly what `Itoa` wrote, provided no digit follows. */
  lemma ScanNumberFormat(n: int, t: string)
    requires InRange(n, Bits64)
    requires t == [] || !IsDigit(t[0])
    ensures ScanNumber(FormatInt(n) + t) == Ok((n, t))
  {
    var f := FormatInt(n);
    var s := f + t;
    var signLen := if n < 0 then 1 else 0;
    var d := FormatDecimal(if n < 0 then -n else n);
    assert s[0] == f[0] && IsDigit(d[0]);
    assert s[signLen..] == d + t;
    LeadingDigitsOfFormat(if n < 0 then -n else n, t);
    assert s[..signLen + |d|] == f && s[signLen + |d|..] == t;
    ParseFormat(n, Bits64);
    ScanNumberToken(s, signLen, |d|);
  }

  /** With no white space in front, `%d` reads just the number. */
  lemma ScanIntNoSpace(s: string)
    requires s != [] && !IsScanSpace(s[0]) && s[0] != '\n'
    ensures ScanInt(s) == ScanNumber(s)
  {
  }

  /** `%d` reads back exactly what `Itoa` wrote, provided no digit follows. */
  lemma ScanIntFormat(n: int, t: string)
    requires InRange(n, Bits64)
    requires t == [] || !IsDigit(t[0])
    ensures ScanInt(FormatInt(n) + t) == Ok((n, t))
  {
    var f := FormatInt(n);
    assert (f + t)[0] == f[0];
    assert f[0] == '-' || IsDigit(f[0]);
    ScanIntNoSpace(f + t);
    ScanNumberFormat(n, t);
  }

  /** The second half of the link reads back the character id. */
  lemma ScanCharIDRoundTrip(c: int, tail: string)
    requires InRange(c, Bits64)
    requires tail == [] || !IsDigit(tail[0])
    ensures ScanCharID(CharMarker + (FormatInt(c) + tail)) == Ok(c)
  {
    var rest := CharMarker + (FormatInt(c) + tail);
    assert rest[..|CharMarker|] == CharMarker && rest[|CharMarker|..] == FormatInt(c) + tail;
    ScanIntFormat(c, tail);
  }

  /** Everything after the literal prefix reads back both ids. */
  lemma ScanIDsRoundTrip(p: int, c: int, tail: string)
    requires InRange(p, Bits64) && InRange(c, Bits64)
    requires tail == [] || !IsDigit(tail[0])
    ensures ScanIDs(FormatInt(p) + (CharMarker + (FormatInt(c) + tail))) == Ok((p, c))
  {
    var rest := CharMarker + (FormatInt(c) + tail);
    assert rest[0] == '#';
    ScanIntFormat(p, rest);
    ScanCharIDRoundTrip(c, tail);
  }

  /** Scanning a well-formed link, with any tail that does not extend the second
      number, gives back both numbers. */
  lemma ScanProfileLinkRoundTrip(p: int, c: int, tail: string)
    requires InRange(p, Bits64) && InRange(c, Bits64)
    requires tail == [] || !IsDigit(tail[0])
    ensures ScanProfileLink(ProfileLink(p, c) + tail) == Ok((p, c))
  {
    var after := FormatInt(p) + (CharMarker + (FormatInt(c) + tail));
    var link := ProfileLink(p, c) + tail;
    AppendAssoc(ProfilePrefix + FormatInt(p) + CharMarker, FormatInt(c), tail);
    AppendAssoc(ProfilePrefix + FormatInt(p), CharMarker, FormatInt(c) + tail);
    AppendAssoc(ProfilePrefix, FormatInt(p), CharMarker + (FormatInt(c) + tail));
    assert link == ProfilePrefix + after;
    assert link[..|ProfilePrefix|] == ProfilePrefix && link[|ProfilePrefix|..] == after;
    ScanIDsRoundTrip(p, c, tail);
  }

  /** The link of character 7 on profile 42 scans. */
  lemma ScanProfileLinkExample()
    ensures ScanProfileLink("/profile/view,42#char_7") == Ok((42, 7))
  {
    assert FormatInt(42) == "42" by {
      assert FormatDecimal(42) == FormatDecimal(4) + [DigitChar(2)];
    }
    assert ProfileLink(42, 7) + "" == "/profile/view,42#char_7";
    ScanProfileLinkRoundTrip(42, 7, "");
  }

  /** A profile id that is not a number fails the whole scan. */
  lemma ScanProfileLinkRejectsNonNumber()
    ensures ScanProfileLink("/profile/view,x#char_7") == Err
  {
    var link := "/profile/view,x#char_7";
    assert ProfilePrefix <= link && link[|ProfilePrefix|..] == "x#char_7";
    assert ScanInt("x#char_7") == ScanNumber("x#char_7");
    assert LeadingDigits("x#char_7") == 0;
  }

  /** Every byte of `s` is white space a `%d` skips. */
  predicate AllScanSpace(s: string)
  {
    forall i :: 0 <= i < |s| ==> IsScanSpace(s[i])
  }

  /** The bytes `SkipSpace` drops are all scan spaces. */
  lemma {:induction false} SkipSpaceSkipsSpaces(s: string)
    requires SkipSpace(s).Ok?
    ensures AllScanSpace(s[..|s| - |SkipSpace(s).value|])
    decreases |s|
  {
    if s != [] && s[0] != '\n' && IsScanSpace(s[0]) {
      var r := SkipSpace(s).value;
      SkipSpaceSkipsSpaces(s[1..]);
      assert s[..|s| - |r|] == [s[0]] + s[1..][..|s| - 1 - |r|];
    }
  }

  /** A number `ScanNumber` reads is a token `ParseInt` accepts with that value, and the
      input left over does not start with a digit. */
  lemma ScanNumberSplit(t: string)
    requires ScanNumber(t).Ok?
    ensures t == t[..|t| - |ScanNumber(t).value.1|] + ScanNumber(t).value.1
    ensures ParseInt(t[..|t| - |ScanNumber(t).value.1|], Bits64) == Ok(ScanNumber(t).value.0)
    ensures ScanNumber(t).value.1 == [] || !IsDigit(ScanNumber(t).value.1[0])
  {
    var signLen := if t != [] && (t[0] == '+' || t[0] == '-') then 1 else 0;
    var n := LeadingDigits(t[signLen..]);
    var rest := ScanNumber(t).value.1;
    assert rest == t[signLen + n..];
    if rest != [] {
      assert rest[0] == t[signLen..][n];
    }
  }

  /** The parts of a link `Sscanf` accepts: the literal prefix, white space, the first
      number's token, the literal `#char_`, white space, the second number's token, and a
      tail that does not start with a digit. */
  predicate ProfileLinkParts(link: string, p: int, c: int,
                             s1: string, d1: string, s2: string, d2: string, tail: string)
  {
    && link == ProfilePrefix + (s1 + (d1 + (CharMarker + (s2 + (d2 + tail)))))
    && AllScanSpace(s1) && AllScanSpace(s2)
    && ParseInt(d1, Bits64) == Ok(p) && ParseInt(d2, Bits64) == Ok(c)
    && (tail == [] || !IsDigit(tail[0]))
  }

  /** A `%d` reads white space, then a token `ParseInt` accepts, and stops before a
      digit. */
  lemma ScanIntParts(s: string) returns (sp: string, d: string)
    requires ScanInt(s).Ok?
    ensures s == sp + (d + ScanInt(s).value.1) && AllScanSpace(sp)
    ensures ParseInt(d, Bits64) == Ok(ScanInt(s).value.0)
    ensures ScanInt(s).value.1 == [] || !IsDigit(ScanInt(s).value.1[0])
  {
    var t := SkipSpace(s).value;
    assert ScanInt(s) == ScanNumber(t);
    SkipSpaceSkipsSpaces(s);
    sp := s[..|s| - |t|];
    SliceJoin(s, |s| - |t|);
    ScanNumberSplit(t);
    d := t[..|t| - |ScanNumber(t).value.1|];
  }

  /** What follows the first number of a link that scans: the literal `#char_`, white
      space, and the second number's token, then a tail that does not start with a
      digit. */
  lemma ScanCharIDParts(rest: string) returns (s2: string, d2: string, tail: string)
    requires ScanCharID(rest).Ok?
    ensures rest == CharMarker + (s2 + (d2 + tail)) && AllScanSpace(s2)
    ensures ParseInt(d2, Bits64) == Ok(ScanCharID(rest).value)
    ensures tail == [] || !IsDigit(tail[0])
  {
    var b := rest[|CharMarker|..];
    PrefixJoin(CharMarker, rest);
    assert ScanCharID(rest).value == ScanInt(b).value.0;
    s2, d2 := ScanIntParts(b);
    tail := ScanInt(b).value.1;
  }

  /** The parts after the literal prefix of a link that scans. */
  lemma ScanIDsParts(a: string) returns (s1: string, d1: string, s2: string, d2: string, tail: string)
    requires ScanIDs(a).Ok?
    ensures a == s1 + (d1 + (CharMarker + (s2 + (d2 + tail))))
    ensures AllScanSpace(s1) && AllScanSpace(s2)
    ensures ParseInt(d1, Bits64) == Ok(ScanIDs(a).value.0) && ParseInt(d2, Bits64) == Ok(ScanIDs(a).value.1)
    ensures tail == [] || !IsDigit(tail[0])
  {
    var rest := ScanInt(a).value.1;
    assert ScanIDs(a).value.0 == ScanInt(a).value.0;
    assert ScanIDs(a).value.1 == ScanCharID(rest).value;
    s1, d1 := ScanIntParts(a);
    s2, d2, tail := ScanCharIDParts(rest);
  }

  /** A link that scans is the literal prefix followed by what `ScanIDs` reads. */
  lemma ScanProfileLinkAfterPrefix(link: string) returns (a: string)
    requires ScanProfileLink(link).Ok?
    ensures link == ProfilePrefix + a && ScanIDs(a) == ScanProfileLink(link)
  {
    a := link[|ProfilePrefix|..];
    PrefixJoin(ProfilePrefix, link);
  }

  /** The parts of a link that scans, found one verb at a time. */
  lemma ScanProfileLinkParts(link: string) returns (s1: string, d1: string, s2: string, d2: string, tail: string)
    requires ScanProfileLink(link).Ok?
    ensures ProfileLinkParts(link, ScanProfileLink(link).value.0, ScanProfileLink(link).value.1, s1, d1, s2, d2, tail)
  {
    var a := ScanProfileLinkAfterPrefix(link);
    s1, d1, s2, d2, tail := ScanIDsParts(a);
  }

  /** The converse of `ScanProfileLinkRoundTrip`: a link that scans is made of exactly
      the parts the format names, so any mismatch of a literal, a missing number or a
      number out of range is an error. */
  lemma ScanProfileLinkWellFormed(link: string)
    requires ScanProfileLink(link).Ok?
    ensures exists s1, d1, s2, d2, tail ::
              ProfileLinkParts(link, ScanProfileLink(link).value.0, ScanProfileLink(link).value.1, s1, d1, s2, d2, tail)
  {
    var s1, d1, s2, d2, tail := ScanProfileLinkParts(link);
  }

  /** Whatever follows the first number must start with `#char_`: otherwise the whole
      scan fails, even though the profile number was read. */
  lemma ScanProfileLinkNeedsMarker(link: string, p: int, rest: string)
    requires ProfilePrefix <= link
    requires ScanInt(link[|ProfilePrefix|..]) == Ok((p, rest))
    requires !(CharMarker <= rest)
    ensures ScanProfileLink(link) == Err
  {
  }
}
