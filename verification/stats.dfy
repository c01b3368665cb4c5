/** The statistics scraper (margonemscrapper/statsscrapper.go): three integer parsers
    for the texts the statistics pages show, the index dispatch that fills a
    `GeneralStats` or a `WorldStats` record from a row of cells, the splitting of a
    world's "online now" box into one `CharacterActivity` record per nick, and the three
    scrap steps with their WaitGroup bookkeeping. Pages arrive as the texts goquery
    would select; the database is an in-memory log of the records handed to
    `db.Create`. */
module Stats {
  import opened Results
  import opened GoStrings
  import opened GoStrconv
  import opened GoRegexp

  /** A capture instant (`time.Time`); the model only copies it around. */
  type Timestamp = int

  /** The summary shown on the statistics page. */
  datatype GeneralStats = GeneralStats(
    timestamp: Timestamp,
    online: int,
    maxOnline: int,
    players: int,
    characters: int,
    players24h: int)

  /** One row of the world list. */
  datatype WorldStats = WorldStats(
    timestamp: Timestamp,
    world: string,
    totalCharacters: int,
    load1min: int,
    load5min: int,
    online: int,
    maxOnline: int,
    private: bool)

  /** One character seen online on one world. */
  datatype CharacterActivity = CharacterActivity(timestamp: Timestamp, world: string, nick: string)

  /** A record handed to `db.Create`. */
  datatype StatsRecord =
    | GeneralRecord(general: GeneralStats)
    | WorldRecord(worldStats: WorldStats)
    | ActivityRecord(activity: CharacterActivity)

  /** A `.server-stats` element: its `data-name` attribute (`""` when the attribute is
      missing, as `Attr` returns it) and the texts of its `td` cells in document order. */
  datatype WorldStatsHtml = WorldStatsHtml(dataName: string, cells: seq<string>)

  /** A child of `.current-players-overlay`: the texts of its first `.news-header` and
      its first `.news-body` (`""` when there is none). */
  datatype WorldSection = WorldSection(headerText: string, bodyText: string)

  /** What the scraper selects on the statistics page: the `.server-stat-value` texts. */
  datatype StatsPage = StatsPage(statValues: seq<string>)

  /** What the scraper selects on the worlds page: the `.server-stats` of the public and
      of the private world list, and the children of `.current-players-overlay`. */
  datatype WorldsPage = WorldsPage(
    publicWorlds: seq<WorldStatsHtml>,
    privateWorlds: seq<WorldStatsHtml>,
    overlayChildren: seq<WorldSection>)

  /** The outcome of `http.Get`: a response whose body parses to a document or not, or
      an error, in which case there is no response at all. */
  datatype Download<T> = Downloaded(parsed: Option<T>) | DownloadFailed

  /** `strconv.ParseFloat(text, 32)`, multiplied by 1000 and truncated to `int`: float32
      arithmetic, which the model takes as a parameter. */
  type FloatPath = string -> Result<int>

  // ---------------------------------------------------------------------------------
  // The parsers
  // ---------------------------------------------------------------------------------

  /** `trim`: `strings.Trim(str, "\n\t ")`. */
  function TrimText(str: string): (r: string)
    ensures |r| <= |str|
    ensures r != [] ==> r[0] !in Whitespace && r[|r| - 1] !in Whitespace
  {
    TrimSpec(str, Whitespace);
    Trim(str, Whitespace)
  }

  /** `trim` cuts a run of newlines, tabs and spaces from each end and nothing else:
      its result is a substring of the input, and trimming again changes nothing. */
  lemma TrimTextSpec(str: string)
    ensures exists i, j :: CutsetAround(str, Whitespace, i, j) && TrimText(str) == str[i..j]
    ensures TrimText(TrimText(str)) == TrimText(str)
  {
    TrimSpec(str, Whitespace);
    TrimIdempotent(str, Whitespace);
  }

  /** `fetchNumber`: every ASCII space is deleted, then the text is parsed as a base-10
      int32. */
  function FetchNumber(text: string): (r: Result<int>)
    ensures r.Ok? ==> InRange(r.value, Bits32)
    ensures ' ' !in text ==> r == ParseInt(text, Bits32)
  {
    ParseInt(RemoveAll(text, ' '), Bits32)
  }

  /** Spaces make no difference to `fetchNumber`, wherever they stand. */
  lemma FetchNumberIgnoresSpace(a: string, b: string)
    ensures FetchNumber(a + " " + b) == FetchNumber(a + b)
  {
    RemoveAllAppend(a + " ", b, ' ');
    RemoveAllAppend(a, " ", ' ');
    RemoveAllAppend(a, b, ' ');
    assert RemoveAll(" ", ' ') == [];
    assert RemoveAll(a + " ", ' ') == RemoveAll(a, ' ');
  }

  /** A space inserted anywhere into text that has none leaves a plain int32 parse. */
  lemma FetchNumberSpaceInserted(f: string, k: nat)
    requires ' ' !in f && k <= |f|
    ensures FetchNumber(f[..k] + " " + f[k..]) == ParseInt(f, Bits32)
  {
    FetchNumberIgnoresSpace(f[..k], f[k..]);
    SliceJoin(f, k);
  }

  /** `fetchNumber` reads back every int32 that `Itoa` wrote, with a space inserted
      anywhere. */
  lemma FetchNumberRoundTrip(n: int, k: nat)
    requires InRange(n, Bits32)
    requires k <= |FormatInt(n)|
    ensures FetchNumber(FormatInt(n)[..k] + " " + FormatInt(n)[k..]) == Ok(n)
  {
    FormatIntNoSpace(n);
    FetchNumberSpaceInserted(FormatInt(n), k);
    ParseFormat(n, Bits32);
  }

  /** The digits of 12345. */
  lemma FormatExample()
    ensures FormatInt(12345) == "12345"
  {
    assert FormatDecimal(12) == FormatDecimal(1) + [DigitChar(2)] == "12";
    assert FormatDecimal(123) == FormatDecimal(12) + [DigitChar(3)] == "123";
    assert FormatDecimal(1234) == FormatDecimal(123) + [DigitChar(4)] == "1234";
    assert FormatDecimal(12345) == FormatDecimal(1234) + [DigitChar(5)] == "12345";
  }

  /** `"12 345"` is 12345 to `fetchNumber` (a plain int32 parse, such as the ladder
      scraper's level column uses, rejects it: `ParseIntRejectsInnerSpace`). */
  lemma FetchNumberExample()
    ensures FetchNumber("12 345") == Ok(12345)
  {
    FormatExample();
    FetchNumberRoundTrip(12345, 2);
    SpacedExample();
  }

  /** `"12 345"` is `"12345"` with a space after two digits. */
  lemma SpacedExample()
    ensures "12345"[..2] + " " + "12345"[2..] == "12 345"
  {
  }

  /** `fetchNumberWithPercent`: every trailing `%` is stripped (spaces are kept), then
      the text is parsed as a base-10 int32. */
  function FetchNumberWithPercent(text: string): (r: Result<int>)
    ensures r.Ok? ==> InRange(r.value, Bits32)
  {
    ParseInt(TrimRight(text, {'%'}), Bits32)
  }

  /** Any number of `%` after a formatted int32 is stripped before parsing. */
  lemma FetchNumberWithPercentRoundTrip(n: int, percents: string)
    requires InRange(n, Bits32)
    requires forall i :: 0 <= i < |percents| ==> percents[i] == '%'
    ensures FetchNumberWithPercent(FormatInt(n) + percents) == Ok(n)
  {
    var f := FormatInt(n);
    assert f[|f| - 1] != '%' by {
      if n < 0 {
        assert f[1..] == FormatDecimal(-n);
        assert f[|f| - 1] == FormatDecimal(-n)[|f| - 2];
      }
    }
    TrimRightPadded(f, percents, {'%'});
    ParseFormat(n, Bits32);
  }

  /** `"87%"` is 87; a space before the `%` is not stripped and makes the text an
      error. */
  lemma FetchNumberWithPercentExample()
    ensures FetchNumberWithPercent("87%") == Ok(87)
    ensures FetchNumberWithPercent("87 %") == Err
  {
    PercentAcceptsExample();
    PercentKeepsSpaceExample();
  }

  /** `"87%"` is 87. */
  lemma PercentAcceptsExample()
    ensures FetchNumberWithPercent("87%") == Ok(87)
  {
    assert FormatInt(87) == "87" by {
      assert FormatDecimal(87) == FormatDecimal(8) + [DigitChar(7)] == "87";
    }
    FetchNumberWithPercentRoundTrip(87, "%");
    assert FormatInt(87) + "%" == "87%";
  }

  /** `"87 %"` keeps its space once the `%` is stripped, so it does not parse. */
  lemma PercentKeepsSpaceExample()
    ensures FetchNumberWithPercent("87 %") == Err
  {
    TrimRightPadded("87 ", "%", {'%'});
    assert "87 " + "%" == "87 %";
    ParseIntRejectsInnerSpace("87", "", Bits32);
    assert "87" + " " + "" == "87 ";
  }

  /** `fetchNumberWithSuffix` slices `text[:len(text)-5]` once `tys.` matches, which
      panics on a match in fewer than five bytes. */
  predicate SuffixSafe(text: string)
  {
    MatchesTys(text) ==> |text| >= 5
  }

  /** `fetchNumberWithSuffix`: when `tys` followed by one more byte occurs anywhere, the
      last five bytes are dropped, and the shortened text goes to the float path and,
      if that fails, to a base-10 int32 parse; otherwise the whole text is parsed as an
      int32. */
  function FetchNumberWithSuffix(text: string, floatPath: FloatPath): (r: Result<int>)
    requires SuffixSafe(text)
    ensures r.Ok? ==> InRange(r.value, Bits32) || (MatchesTys(text) && floatPath(text[..|text| - 5]) == r)
  {
    if MatchesTys(text) then
      var short := text[..|text| - 5];
      match floatPath(short)
      case Ok(v) => Ok(v)
      case Err => ParseInt(short, Bits32)
    else ParseInt(text, Bits32)
  }

  /** Without a `tys` match the suffix parser is a plain int32 parse: spaces are not
      deleted and the float path is never asked. */
  lemma SuffixWithoutMatch(text: string, floatPath: FloatPath)
    requires !MatchesTys(text)
    ensures FetchNumberWithSuffix(text, floatPath) == ParseInt(text, Bits32)
    ensures forall other: FloatPath :: FetchNumberWithSuffix(text, other) == FetchNumberWithSuffix(text, floatPath)
  {
  }

  /** With a `tys` match only the text without its last five bytes is read: the float
      path's value when it has one, else the int32 parse of the same shortened text. */
  lemma SuffixWithMatch(text: string, floatPath: FloatPath)
    requires MatchesTys(text) && |text| >= 5
    ensures var short := text[..|text| - 5];
            FetchNumberWithSuffix(text, floatPath) ==
              if floatPath(short).Ok? then floatPath(short) else ParseInt(short, Bits32)
  {
  }
  /** An int32 written out has no `tys.` match and reads back whatever the float
      path. */
  lemma SuffixRoundTrip(n: int, floatPath: FloatPath)
    requires InRange(n, Bits32)
    ensures SuffixSafe(FormatInt(n))
    ensures FetchNumberWithSuffix(FormatInt(n), floatPath) == Ok(n)
  {
    var f := FormatInt(n);
    FormatIntSignAndDigits(n);
    if MatchesTys(f) {
      MatchesTysHasT(f);
    }
    ParseFormat(n, Bits32);
  }

  /** An int32 written out and followed by `" tys."` goes to the float path whole; when
      the float path fails, the int32 parse of the same digits reads it back. */
  lemma SuffixThousandsRoundTrip(n: int, floatPath: FloatPath)
    requires InRange(n, Bits32)
    ensures SuffixSafe(FormatInt(n) + " tys.")
    ensures var f := FormatInt(n);
            FetchNumberWithSuffix(f + " tys.", floatPath) ==
              if floatPath(f).Ok? then floatPath(f) else Ok(n)
  {
    var f := FormatInt(n);
    var text := f + " tys.";
    assert text[|f| + 1..|f| + 4] == "tys" && text[|f| + 4] == '.';
    assert TysAt(text, |f| + 1);
    assert text[..|text| - 5] == f;
    SuffixWithMatch(text, floatPath);
    ParseFormat(n, Bits32);
  }


  /** `"500"` is 500 whatever the float path does, and `"5 000"` is an error. */
  lemma SuffixPlainExample(floatPath: FloatPath)
    ensures FetchNumberWithSuffix("500", floatPath) == Ok(500)
    ensures FetchNumberWithSuffix("5 000", floatPath) == Err
  {
    SuffixAcceptsExample(floatPath);
    SuffixRejectsSpaceExample(floatPath);
  }

  /** `"500"` is 500 whatever the float path. */
  lemma SuffixAcceptsExample(floatPath: FloatPath)
    ensures FetchNumberWithSuffix("500", floatPath) == Ok(500)
  {
    assert FormatInt(500) == "500" by {
      assert FormatDecimal(50) == FormatDecimal(5) + [DigitChar(0)] == "50";
      assert FormatDecimal(500) == FormatDecimal(50) + [DigitChar(0)] == "500";
    }
    SuffixRoundTrip(500, floatPath);
  }

  /** `"5 000"` has no `tys.` match, and its space makes the int32 parse fail. */
  lemma SuffixRejectsSpaceExample(floatPath: FloatPath)
    ensures FetchNumberWithSuffix("5 000", floatPath) == Err
  {
    if MatchesTys("5 000") {
      MatchesTysHasT("5 000");
    }
    ParseIntRejectsInnerSpace("5", "000", Bits32);
    assert "5" + " " + "000" == "5 000";
  }


  /** The five dropped bytes are `" tys."` in `"3.2 tys."`, so the float path reads
      `"3.2"`; in `"3.2tys."` they are `"2tys."`, so it reads `"3."`. */
  lemma SuffixDropsFiveBytes(floatPath: FloatPath)
    ensures FetchNumberWithSuffix("3.2 tys.", floatPath) ==
              if floatPath("3.2").Ok? then floatPath("3.2") else Err
    ensures FetchNumberWithSuffix("3.2tys.", floatPath) ==
              if floatPath("3.").Ok? then floatPath("3.") else Err
  {
    assert TysAt("3.2 tys.", 4);
    assert "3.2 tys."[..3] == "3.2";
    assert ParseInt("3.2", Bits32) == Err by {
      ParseIntAcceptsDigits("3.2", Bits32);
      assert !IsDigit("3.2"[1]);
    }
    assert TysAt("3.2tys.", 3);
    assert "3.2tys."[..2] == "3.";
    assert ParseInt("3.", Bits32) == Err by {
      ParseIntAcceptsDigits("3.", Bits32);
      assert !IsDigit("3."[1]);
    }
  }

  /** `"tys."` alone matches in four bytes: the slice it leads to is out of range. */
  lemma SuffixShortMatchPanics()
    ensures !SuffixSafe("tys.")
    ensures SuffixSafe("1tys.")
  {
    assert TysAt("tys.", 0);
  }

  // ---------------------------------------------------------------------------------
  // General statistics
  // ---------------------------------------------------------------------------------

  /** The value texts the suffix parser reads (indices 2 and 3), trimmed, do not panic. */
  predicate GeneralValuesSafe(values: seq<string>)
  {
    (|values| > 2 ==> SuffixSafe(TrimText(values[2])))
    && (|values| > 3 ==> SuffixSafe(TrimText(values[3])))
  }

  /** The `switch` on the index of one `.server-stat-value`, its trimmed text in hand. */
  function GeneralValue(gs: GeneralStats, index: nat, text: string, floatPath: FloatPath): GeneralStats
    requires index == 2 || index == 3 ==> SuffixSafe(text)
  {
    if index == 0 then gs.(online := FetchNumber(text).ValueOr(0))
    else if index == 1 then gs.(maxOnline := FetchNumber(text).ValueOr(0))
    else if index == 2 then gs.(players := FetchNumberWithSuffix(text, floatPath).ValueOr(0))
    else if index == 3 then gs.(characters := FetchNumberWithSuffix(text, floatPath).ValueOr(0))
    else if index == 4 then gs.(players24h := FetchNumber(text).ValueOr(0))
    else gs
  }

  /** The record after the first `k` values: a zero record stamped with `ts`, then
      those values visited in order. */
  function GeneralStatsUpTo(ts: Timestamp, values: seq<string>, k: nat, floatPath: FloatPath): GeneralStats
    requires GeneralValuesSafe(values) && k <= |values|
  {
    if k == 0 then GeneralStats(ts, 0, 0, 0, 0, 0)
    else GeneralValue(GeneralStatsUpTo(ts, values, k - 1, floatPath), k - 1, TrimText(values[k - 1]), floatPath)
  }

  /** The record `fetchGeneralStats` builds: every value visited. */
  function GeneralStatsOf(ts: Timestamp, values: seq<string>, floatPath: FloatPath): GeneralStats
    requires GeneralValuesSafe(values)
  {
    GeneralStatsUpTo(ts, values, |values|, floatPath)
  }

  /** After `k` values, each field comes from its own value through its own parser, or
      is still 0 when its value has not been visited. */
  lemma {:induction false} GeneralStatsUpToFields(ts: Timestamp, values: seq<string>, k: nat, floatPath: FloatPath)
    requires GeneralValuesSafe(values) && k <= |values|
    ensures var gs := GeneralStatsUpTo(ts, values, k, floatPath);
            && gs.timestamp == ts
            && gs.online == (if k > 0 then FetchNumber(TrimText(values[0])).ValueOr(0) else 0)
            && gs.maxOnline == (if k > 1 then FetchNumber(TrimText(values[1])).ValueOr(0) else 0)
            && gs.players == (if k > 2 then FetchNumberWithSuffix(TrimText(values[2]), floatPath).ValueOr(0) else 0)
            && gs.characters == (if k > 3 then FetchNumberWithSuffix(TrimText(values[3]), floatPath).ValueOr(0) else 0)
            && gs.players24h == (if k > 4 then FetchNumber(TrimText(values[4])).ValueOr(0) else 0)
    decreases k
  {
    if k > 0 {
      GeneralStatsUpToFields(ts, values, k - 1, floatPath);
    }
  }

  /** Each field of the general record comes from its own value, through its own
      parser; a field whose value is missing stays 0, and values from index 5 on are
      ignored. */
  lemma GeneralStatsFields(ts: Timestamp, values: seq<string>, floatPath: FloatPath)
    requires GeneralValuesSafe(values)
    ensures var gs := GeneralStatsOf(ts, values, floatPath);
            && gs.timestamp == ts
            && gs.online == (if |values| > 0 then FetchNumber(TrimText(values[0])).ValueOr(0) else 0)
            && gs.maxOnline == (if |values| > 1 then FetchNumber(TrimText(values[1])).ValueOr(0) else 0)
            && gs.players == (if |values| > 2 then FetchNumberWithSuffix(TrimText(values[2]), floatPath).ValueOr(0) else 0)
            && gs.characters == (if |values| > 3 then FetchNumberWithSuffix(TrimText(values[3]), floatPath).ValueOr(0) else 0)
            && gs.players24h == (if |values| > 4 then FetchNumber(TrimText(values[4])).ValueOr(0) else 0)
  {
    GeneralStatsUpToFields(ts, values, |values|, floatPath);
  }

  /** Values after the fifth change nothing. */
  lemma {:induction false} GeneralStatsIgnoresExtra(ts: Timestamp, values: seq<string>, extra: seq<string>, floatPath: FloatPath)
    requires |values| >= 5 && GeneralValuesSafe(values)
    ensures GeneralValuesSafe(values + extra)
    ensures GeneralStatsOf(ts, values + extra, floatPath) == GeneralStatsOf(ts, values, floatPath)
  {
    var all := values + extra;
    assert forall i :: 0 <= i < |values| ==> all[i] == values[i];
    GeneralStatsFields(ts, values, floatPath);
    GeneralStatsFields(ts, all, floatPath);
  }

  // ---------------------------------------------------------------------------------
  // World statistics
  // ---------------------------------------------------------------------------------

  /** The cell the suffix parser reads (index 1), trimmed, does not panic. */
  predicate WorldCellsSafe(cells: seq<string>)
  {
    |cells| > 1 ==> SuffixSafe(TrimText(cells[1]))
  }

  /** `worldName[1:]` needs a `data-name` of at least one byte (a missing attribute is
      `""` and panics), and the cells must not panic either. */
  predicate WorldHtmlSafe(html: WorldStatsHtml)
  {
    |html.dataName| >= 1 && WorldCellsSafe(html.cells)
  }

  /** `strings.Title(worldName[1:])`: the `data-name` without its first byte, each word
      capitalised. */
  function WorldName(dataName: string): (name: string)
    requires |dataName| >= 1
    ensures |name| == |dataName| - 1
  {
    Title(dataName[1..])
  }

  /** The world name is the `data-name` shifted by one byte, with the byte that opens it
      and every byte after a separator title-cased and all others kept. */
  lemma WorldNameSpec(dataName: string)
    requires |dataName| >= 1
    ensures var name := WorldName(dataName);
            forall i :: 0 <= i < |name| ==>
              name[i] == if i == 0 || IsSeparator(dataName[i]) then ToTitle(dataName[i + 1]) else dataName[i + 1]
  {
    var s := dataName[1..];
    assert forall i :: 0 <= i < |s| ==> s[i] == dataName[i + 1];
  }

  /** The `switch` on the index of one `td`, its trimmed text in hand. */
  function WorldCell(ws: WorldStats, index: nat, text: string, floatPath: FloatPath): WorldStats
    requires index == 1 ==> SuffixSafe(text)
  {
    if index == 1 then ws.(totalCharacters := FetchNumberWithSuffix(text, floatPath).ValueOr(0))
    else if index == 3 then ws.(load1min := FetchNumberWithPercent(text).ValueOr(0))
    else if index == 5 then ws.(load5min := FetchNumberWithPercent(text).ValueOr(0))
    else if index == 7 then ws.(online := FetchNumber(text).ValueOr(0))
    else if index == 9 then ws.(maxOnline := FetchNumber(text).ValueOr(0))
    else ws
  }

  /** The first `k` cells visited in order, starting from `start`. */
  function WorldCellsUpTo(start: WorldStats, cells: seq<string>, k: nat, floatPath: FloatPath): WorldStats
    requires WorldCellsSafe(cells) && k <= |cells|
  {
    if k == 0 then start
    else WorldCell(WorldCellsUpTo(start, cells, k - 1, floatPath), k - 1, TrimText(cells[k - 1]), floatPath)
  }

  /** The record `fetchWorldStats` builds: a zero, public record stamped with `ts` and
      named after the `data-name`, then the cells visited in order. */
  function WorldStatsOf(ts: Timestamp, html: WorldStatsHtml, floatPath: FloatPath): WorldStats
    requires WorldHtmlSafe(html)
  {
    WorldCellsUpTo(WorldStats(ts, WorldName(html.dataName), 0, 0, 0, 0, 0, false), html.cells, |html.cells|, floatPath)
  }

  /** Each number of the world record comes from its own cell (1, 3, 5, 7, 9) through
      its own parser; a missing cell leaves 0; the even cells and those past 9 are
      ignored; the name and the time stamp are kept; the record is public. */
  lemma {:induction false} WorldCellsFields(start: WorldStats, cells: seq<string>, k: nat, floatPath: FloatPath)
    requires WorldCellsSafe(cells) && k <= |cells|
    ensures var ws := WorldCellsUpTo(start, cells, k, floatPath);
            && ws.timestamp == start.timestamp && ws.world == start.world && ws.private == start.private
            && ws.totalCharacters == (if k > 1 then FetchNumberWithSuffix(TrimText(cells[1]), floatPath).ValueOr(0) else start.totalCharacters)
            && ws.load1min == (if k > 3 then FetchNumberWithPercent(TrimText(cells[3])).ValueOr(0) else start.load1min)
            && ws.load5min == (if k > 5 then FetchNumberWithPercent(TrimText(cells[5])).ValueOr(0) else start.load5min)
            && ws.online == (if k > 7 then FetchNumber(TrimText(cells[7])).ValueOr(0) else start.online)
            && ws.maxOnline == (if k > 9 then FetchNumber(TrimText(cells[9])).ValueOr(0) else start.maxOnline)
    decreases k
  {
    if k > 0 {
      WorldCellsFields(start, cells, k - 1, floatPath);
    }
  }

  /** The whole world record, field by field. */
  lemma WorldStatsFields(ts: Timestamp, html: WorldStatsHtml, floatPath: FloatPath)
    requires WorldHtmlSafe(html)
    ensures var ws := WorldStatsOf(ts, html, floatPath);
            var cells := html.cells;
            && ws.timestamp == ts && ws.world == WorldName(html.dataName) && !ws.private
            && ws.totalCharacters == (if |cells| > 1 then FetchNumberWithSuffix(TrimText(cells[1]), floatPath).ValueOr(0) else 0)
            && ws.load1min == (if |cells| > 3 then FetchNumberWithPercent(TrimText(cells[3])).ValueOr(0) else 0)
            && ws.load5min == (if |cells| > 5 then FetchNumberWithPercent(TrimText(cells[5])).ValueOr(0) else 0)
            && ws.online == (if |cells| > 7 then FetchNumber(TrimText(cells[7])).ValueOr(0) else 0)
            && ws.maxOnline == (if |cells| > 9 then FetchNumber(TrimText(cells[9])).ValueOr(0) else 0)
  {
    WorldCellsFields(WorldStats(ts, WorldName(html.dataName), 0, 0, 0, 0, 0, false), html.cells, |html.cells|, floatPath);
  }

  /** Every world of a list is safe to read. */
  predicate WorldListSafe(worlds: seq<WorldStatsHtml>)
  {
    forall i :: 0 <= i < |worlds| ==> WorldHtmlSafe(worlds[i])
  }

  /** The records `fetchAllPublicWorldStats` (with `private` false) or
      `fetchAllPrivateWorldStats` (with `private` true) logs: one per world, in order. */
  function WorldRecords(ts: Timestamp, worlds: seq<WorldStatsHtml>, floatPath: FloatPath, private: bool): (r: seq<StatsRecord>)
    requires WorldListSafe(worlds)
    ensures |r| == |worlds|
  {
    seq(|worlds|, i requires 0 <= i < |worlds| => WorldRecord(WorldStatsOf(ts, worlds[i], floatPath).(private := private)))
  }

  /** Appending one world appends its record. */
  lemma WorldRecordsSnoc(ts: Timestamp, worlds: seq<WorldStatsHtml>, html: WorldStatsHtml, floatPath: FloatPath, private: bool)
    requires WorldListSafe(worlds) && WorldHtmlSafe(html)
    ensures WorldListSafe(worlds + [html])
    ensures WorldRecords(ts, worlds + [html], floatPath, private) ==
              WorldRecords(ts, worlds, floatPath, private) + [WorldRecord(WorldStatsOf(ts, html, floatPath).(private := private))]
  {
    var all := worlds + [html];
    assert forall i :: 0 <= i < |worlds| ==> all[i] == worlds[i];
  }

  /** A public and a private listing of the same worlds differ only in the flag. */
  lemma PrivateOnlyFlag(ts: Timestamp, worlds: seq<WorldStatsHtml>, floatPath: FloatPath, i: nat)
    requires WorldListSafe(worlds) && i < |worlds|
    ensures var pub := WorldRecords(ts, worlds, floatPath, false)[i].worldStats;
            var priv := WorldRecords(ts, worlds, floatPath, true)[i].worldStats;
            !pub.private && priv.private && priv == pub.(private := true)
  {
    WorldStatsFields(ts, worlds[i], floatPath);
  }

  // ---------------------------------------------------------------------------------
  // Character activity
  // ---------------------------------------------------------------------------------

  /** The link text in front of the nick list, with its 24 spaces, which
      `strings.Replace(_, _, "", 1)` deletes once. */
  const LegendMarker: string := "Legenda                        >>"

  /** `worldName[:len(worldName)-1]` needs `^.+:` to match the trimmed header. */
  predicate HeaderSafe(headerText: string)
  {
    FindColonPrefix(TrimText(headerText)) != ""
  }

  /** The world name of a section: the `^.+:` match of the trimmed header without its
      colon. It is not empty, is followed by a colon in the header, holds no newline,
      and no colon follows it on the header's first line. */
  function ActivityWorldName(headerText: string): (name: string)
    requires HeaderSafe(headerText)
    ensures |name| >= 1
  {
    var m := FindColonPrefix(TrimText(headerText));
    m[..|m| - 1]
  }

  /** The world name is followed by a colon in the trimmed header, holds no newline,
      and no colon follows it on the header's first line. */
  lemma ActivityWorldNameSpec(headerText: string)
    requires HeaderSafe(headerText)
    ensures var name := ActivityWorldName(headerText);
            var t := TrimText(headerText);
            && |name| < |t| && t[..|name|] == name && t[|name|] == ':'
            && (forall i :: 0 <= i < |name| ==> name[i] != '\n')
            && (forall j :: |name| < j < LineEnd(t) ==> t[j] != ':')
  {
    FindColonPrefixSpec(TrimText(headerText));
  }

  /** The nick texts of a section: the body without its first legend marker, trimmed,
      split at every `", "`. */
  function Nicks(bodyText: string): (nicks: seq<string>)
    ensures |nicks| >= 1
  {
    Split(TrimText(RemoveFirst(bodyText, LegendMarker)), ", ")
  }

  /** The nicks put back together are the trimmed list, and none of them contains
      `", "`. */
  lemma NicksJoin(bodyText: string)
    ensures Join(Nicks(bodyText), ", ") == TrimText(RemoveFirst(bodyText, LegendMarker))
    ensures forall i :: 0 <= i < |Nicks(bodyText)| ==> Index(Nicks(bodyText)[i], ", ") == -1
  {
    JoinSplit(TrimText(RemoveFirst(bodyText, LegendMarker)), ", ");
    SplitPiecesFree(TrimText(RemoveFirst(bodyText, LegendMarker)), ", ");
  }

  /** One world's box of online characters, once read: its name and its nick texts. */
  datatype OnlineList = OnlineList(world: string, nicks: seq<string>)

  /** What one section reads as: the world name of its header and the nicks of its
      body. */
  function OnlineListOf(section: WorldSection): (list: OnlineList)
    requires HeaderSafe(section.headerText)
    ensures |list.nicks| >= 1 && |list.world| >= 1
  {
    OnlineList(ActivityWorldName(section.headerText), Nicks(section.bodyText))
  }

  /** Every section after the first has a header the name regexp matches. */
  predicate SectionsSafe(children: seq<WorldSection>)
  {
    forall i :: 1 <= i < |children| ==> HeaderSafe(children[i].headerText)
  }

  /** The sections read among the first `k` children: all but the first, in order. */
  function OnlineListsUpTo(children: seq<WorldSection>, k: nat): (lists: seq<OnlineList>)
    requires SectionsSafe(children) && k <= |children|
    ensures |lists| == if k == 0 then 0 else k - 1
  {
    if k <= 1 then [] else OnlineListsUpTo(children, k - 1) + [OnlineListOf(children[k - 1])]
  }

  /** The sections `fetchAllCharacterActivity` reads: every child but the first, in
      order. */
  function OnlineLists(children: seq<WorldSection>): (lists: seq<OnlineList>)
    requires SectionsSafe(children)
    ensures |lists| == if children == [] then 0 else |children| - 1
  {
    OnlineListsUpTo(children, |children|)
  }

  /** The records of one world: one per nick, in order, all stamped alike. */
  function ListRecords(ts: Timestamp, list: OnlineList): (r: seq<StatsRecord>)
    ensures |r| == |list.nicks|
  {
    seq(|list.nicks|, i requires 0 <= i < |list.nicks| => ActivityRecord(CharacterActivity(ts, list.world, list.nicks[i])))
  }

  /** The records of several worlds, one world after the other. */
  function ListsRecords(ts: Timestamp, lists: seq<OnlineList>): seq<StatsRecord>
  {
    if lists == [] then []
    else ListsRecords(ts, lists[..|lists| - 1]) + ListRecords(ts, lists[|lists| - 1])
  }

  /** The records `fetchAllCharacterActivity` logs. */
  function ActivityRecords(ts: Timestamp, children: seq<WorldSection>): seq<StatsRecord>
    requires SectionsSafe(children)
  {
    ListsRecords(ts, OnlineLists(children))
  }

  /** A body holding nothing but white space still yields one record, with an empty
      nick. */
  lemma EmptyListOneRecord(ts: Timestamp, section: WorldSection)
    requires HeaderSafe(section.headerText)
    requires forall i :: 0 <= i < |section.bodyText| ==> section.bodyText[i] in Whitespace
    ensures ListRecords(ts, OnlineListOf(section)) ==
              [ActivityRecord(CharacterActivity(ts, ActivityWorldName(section.headerText), ""))]
  {
    var body := section.bodyText;
    forall j | 0 <= j
      ensures !OccursAt(body, LegendMarker, j)
    {
      if j + |LegendMarker| <= |body| {
        assert body[j..j + |LegendMarker|][0] == body[j];
      }
    }
    assert RemoveFirst(body, LegendMarker) == body;
    TrimPadded(body, "", "", Whitespace);
    assert body + "" + "" == body;
    SplitEmpty(", ");
  }

  /** The records of a list of worlds with one world appended. */
  lemma ListsRecordsSnoc(ts: Timestamp, lists: seq<OnlineList>, list: OnlineList)
    ensures ListsRecords(ts, lists + [list]) == ListsRecords(ts, lists) + ListRecords(ts, list)
  {
    assert (lists + [list])[..|lists|] == lists;
  }

  /** Reading one more child after the first adds its world's records. */
  lemma ActivityRecordsSnoc(ts: Timestamp, children: seq<WorldSection>, k: nat)
    requires SectionsSafe(children) && 1 <= k < |children|
    ensures ListsRecords(ts, OnlineListsUpTo(children, k + 1)) ==
              ListsRecords(ts, OnlineListsUpTo(children, k)) + ListRecords(ts, OnlineListOf(children[k]))
  {
    ListsRecordsSnoc(ts, OnlineListsUpTo(children, k), OnlineListOf(children[k]));
  }

  /** The log after one more child: what was logged, then the new world's records. */
  lemma ActivityLogStep(log: seq<StatsRecord>, ts: Timestamp, children: seq<WorldSection>, k: nat)
    requires SectionsSafe(children) && k < |children|
    ensures k == 0 ==> log + ListsRecords(ts, OnlineListsUpTo(children, k + 1)) == log
    ensures k >= 1 ==>
              log + ListsRecords(ts, OnlineListsUpTo(children, k + 1)) ==
              log + ListsRecords(ts, OnlineListsUpTo(children, k)) + ListRecords(ts, OnlineListOf(children[k]))
  {
    if k >= 1 {
      ActivityRecordsSnoc(ts, children, k);
      AppendAssoc(log, ListsRecords(ts, OnlineListsUpTo(children, k)), ListRecords(ts, OnlineListOf(children[k])));
    } else {
      assert OnlineListsUpTo(children, 1) == [];
      assert log + [] == log;
    }
  }

  /** Every section after the first gives at least one record. */
  lemma {:induction false} ListsRecordsUpToLength(ts: Timestamp, children: seq<WorldSection>, k: nat)
    requires SectionsSafe(children) && k <= |children|
    ensures |ListsRecords(ts, OnlineListsUpTo(children, k))| >= k - 1
    decreases k
  {
    if k > 1 {
      var lists, list := OnlineListsUpTo(children, k - 1), OnlineListOf(children[k - 1]);
      assert OnlineListsUpTo(children, k) == lists + [list];
      ListsRecordsUpToLength(ts, children, k - 1);
      ListsRecordsSnoc(ts, lists, list);
      assert |ListsRecords(ts, lists + [list])| == |ListsRecords(ts, lists)| + |ListRecords(ts, list)|;
      assert |ListRecords(ts, list)| >= 1;
      assert |ListsRecords(ts, lists)| >= k - 2;
      assert |ListsRecords(ts, OnlineListsUpTo(children, k))| == |ListsRecords(ts, lists + [list])|;
    } else {
      assert OnlineListsUpTo(children, k) == [];
    }
  }

  /** Every section after the first gives at least one record. */
  lemma ActivityAtLeastOnePerWorld(ts: Timestamp, children: seq<WorldSection>)
    requires SectionsSafe(children)
    ensures |ActivityRecords(ts, children)| >= |children| - 1
  {
    ListsRecordsUpToLength(ts, children, |children|);
  }

  /** The first child is never read: replacing it changes nothing. */
  lemma {:induction false} ActivityIgnoresFirst(a: WorldSection, b: WorldSection, rest: seq<WorldSection>, k: nat)
    requires SectionsSafe([a] + rest) && k <= |rest| + 1
    ensures SectionsSafe([b] + rest)
    ensures OnlineListsUpTo([a] + rest, k) == OnlineListsUpTo([b] + rest, k)
    decreases k
  {
    var xs, ys := [a] + rest, [b] + rest;
    assert forall i :: 1 <= i < |xs| ==> xs[i] == ys[i];
    if k > 1 {
      ActivityIgnoresFirst(a, b, rest, k - 1);
    }
  }

  /** The records of one world with one more nick. */
  lemma ListRecordsPrefix(ts: Timestamp, list: OnlineList, k: nat)
    requires k < |list.nicks|
    ensures ListRecords(ts, list)[..k + 1] ==
              ListRecords(ts, list)[..k] + [ActivityRecord(CharacterActivity(ts, list.world, list.nicks[k]))]
  {
  }

  // ---------------------------------------------------------------------------------
  // Downloads
  // ---------------------------------------------------------------------------------

  /** `getPageBody` as written returns `res.Body` even when `http.Get` failed, and `res`
      is nil then: the read is safe only for a download that produced a response. */
  predicate ResponsePresent<T>(download: Download<T>)
  {
    download.Downloaded?
  }

  /** `getPageBody` as written, followed by `getPageDocument`: the parsed document, or
      `None` when the body does not parse. It dereferences the response first, so a
      failed download never gets as far as the caller's `err != nil` branch. */
  function PageDocumentAsWritten<T>(download: Download<T>): (doc: Option<T>)
    requires ResponsePresent(download)
    ensures doc == download.parsed
  {
    download.parsed
  }

  /** `getPageBody` with the response checked: a failed download is an error the caller
      returns, a response is parsed as before. */
  function PageDocument<T>(download: Download<T>): (r: Result<Option<T>>)
    ensures r.Err? <==> download.DownloadFailed?
    ensures ResponsePresent(download) ==> r == Ok(PageDocumentAsWritten(download))
  {
    match download
    case DownloadFailed => Err
    case Downloaded(doc) => Ok(doc)
  }

  /** The page a scrap step goes on with, if any: none after a failed download or a
      body that does not parse. Where the as-written read is safe, it agrees with it. */
  function PageOf<T>(download: Download<T>): (page: Option<T>)
    ensures download.DownloadFailed? ==> page == None
    ensures ResponsePresent(download) ==> page == PageDocumentAsWritten(download)
  {
    match PageDocument(download)
    case Err => None
    case Ok(doc) => doc
  }

  /** What the fetch code may read of the page a step goes on with without panicking:
      nothing when no page arrives. */
  predicate StatsPageSafe(download: Download<StatsPage>)
  {
    PageOf(download).Some? ==> GeneralValuesSafe(PageOf(download).value.statValues)
  }

  predicate WorldsPageSafe(download: Download<WorldsPage>)
  {
    PageOf(download).Some? ==>
      WorldListSafe(PageOf(download).value.publicWorlds) && WorldListSafe(PageOf(download).value.privateWorlds)
  }

  predicate ActivityPageSafe(download: Download<WorldsPage>)
  {
    PageOf(download).Some? ==> SectionsSafe(PageOf(download).value.overlayChildren)
  }

  /** What a step as written may be given without panicking: a download with a response
      (`getPageBody` reads `res.Body` first) whose page is safe to read. */
  predicate StatsDownloadSafe(download: Download<StatsPage>)
  {
    ResponsePresent(download) && StatsPageSafe(download)
  }

  predicate WorldsDownloadSafe(download: Download<WorldsPage>)
  {
    ResponsePresent(download) && WorldsPageSafe(download)
  }

  predicate ActivityDownloadSafe(download: Download<WorldsPage>)
  {
    ResponsePresent(download) && ActivityPageSafe(download)
  }

  /** The records `scrapGeneralStats` logs. */
  function GeneralStepRecords(now: Timestamp, download: Download<StatsPage>, floatPath: FloatPath): (r: seq<StatsRecord>)
    requires StatsPageSafe(download)
    ensures |r| == if PageOf(download).Some? then 1 else 0
  {
    match PageOf(download)
    case None => []
    case Some(page) => [GeneralRecord(GeneralStatsOf(now, page.statValues, floatPath))]
  }

  /** The records `scrapWorldStats` logs: the public worlds, then the private ones. */
  function WorldStepRecords(now: Timestamp, download: Download<WorldsPage>, floatPath: FloatPath): (r: seq<StatsRecord>)
    requires WorldsPageSafe(download)
    ensures PageOf(download).Some? ==>
              |r| == |PageOf(download).value.publicWorlds| + |PageOf(download).value.privateWorlds|
    ensures PageOf(download).None? ==> r == []
  {
    match PageOf(download)
    case None => []
    case Some(page) =>
      WorldRecords(now, page.publicWorlds, floatPath, false) + WorldRecords(now, page.privateWorlds, floatPath, true)
  }

  /** The records `scrapCharacterActivity` logs. */
  function ActivityStepRecords(now: Timestamp, download: Download<WorldsPage>): (r: seq<StatsRecord>)
    requires ActivityPageSafe(download)
    ensures PageOf(download).None? ==> r == []
  {
    match PageOf(download)
    case None => []
    case Some(page) => ActivityRecords(now, page.overlayChildren)
  }

  /** A failed download, the one case the steps' `err != nil` branch was written for,
      is exactly what the steps as written cannot be given: `getPageBody` reads the nil
      response first. The checked read takes it, and the step logs nothing. */
  lemma FailedDownloadDereferencesNil(now: Timestamp, floatPath: FloatPath)
    ensures !StatsDownloadSafe(DownloadFailed) && !WorldsDownloadSafe(DownloadFailed)
    ensures !ActivityDownloadSafe(DownloadFailed)
    ensures StatsPageSafe(DownloadFailed) && WorldsPageSafe(DownloadFailed) && ActivityPageSafe(DownloadFailed)
    ensures GeneralStepRecords(now, DownloadFailed, floatPath) == []
    ensures WorldStepRecords(now, DownloadFailed, floatPath) == []
    ensures ActivityStepRecords(now, DownloadFailed) == []
  {
  }

  // ---------------------------------------------------------------------------------
  // The scraper
  // ---------------------------------------------------------------------------------

  /** `StatsScrapper`: the WaitGroup counter, the time stamp of the current step and the
      records written so far. */
  class StatsScrapper {
    var wg: int
    var timestamp: Timestamp
    var log: seq<StatsRecord>

    /** A zero `StatsScrapper`. */
    constructor ()
      ensures wg == 0 && timestamp == 0 && log == []
    {
      wg := 0;
      timestamp := 0;
      log := [];
    }

    /** `fetchGeneralStats`: the values are visited in order, each trimmed and sent
        through the parser its index selects; exactly one record is logged. */
    method FetchGeneralStats(page: StatsPage, floatPath: FloatPath)
      requires GeneralValuesSafe(page.statValues)
      modifies this`log
      ensures log == old(log) + [GeneralRecord(GeneralStatsOf(timestamp, page.statValues, floatPath))]
    {
      var values := page.statValues;
      var gs := GeneralStats(timestamp, 0, 0, 0, 0, 0);
      var index := 0;
      while index < |values|
        invariant 0 <= index <= |values|
        invariant gs == GeneralStatsUpTo(timestamp, values, index, floatPath)
      {
        var text := TrimText(values[index]);
        if index == 0 {
          gs := gs.(online := FetchNumber(text).ValueOr(0));
        } else if index == 1 {
          gs := gs.(maxOnline := FetchNumber(text).ValueOr(0));
        } else if index == 2 {
          gs := gs.(players := FetchNumberWithSuffix(text, floatPath).ValueOr(0));
        } else if index == 3 {
          gs := gs.(characters := FetchNumberWithSuffix(text, floatPath).ValueOr(0));
        } else if index == 4 {
          gs := gs.(players24h := FetchNumber(text).ValueOr(0));
        }
        index := index + 1;
      }
      log := log + [GeneralRecord(gs)];
    }

    /** `fetchWorldStats`: the world name from `data-name`, the time stamp, then the
        cells visited in order, each trimmed and sent through the parser its index
        selects. */
    method FetchWorldStats(html: WorldStatsHtml, floatPath: FloatPath) returns (ws: WorldStats)
      requires WorldHtmlSafe(html)
      ensures ws == WorldStatsOf(timestamp, html, floatPath)
    {
      var start := WorldStats(0, "", 0, 0, 0, 0, 0, false);
      start := start.(world := WorldName(html.dataName));
      start := start.(timestamp := timestamp);
      ws := start;
      var cells := html.cells;
      var index := 0;
      while index < |cells|
        invariant 0 <= index <= |cells|
        invariant ws == WorldCellsUpTo(start, cells, index, floatPath)
      {
        var text := TrimText(cells[index]);
        if index == 1 {
          ws := ws.(totalCharacters := FetchNumberWithSuffix(text, floatPath).ValueOr(0));
        } else if index == 3 {
          ws := ws.(load1min := FetchNumberWithPercent(text).ValueOr(0));
        } else if index == 5 {
          ws := ws.(load5min := FetchNumberWithPercent(text).ValueOr(0));
        } else if index == 7 {
          ws := ws.(online := FetchNumber(text).ValueOr(0));
        } else if index == 9 {
          ws := ws.(maxOnline := FetchNumber(text).ValueOr(0));
        }
        index := index + 1;
      }
    }

    /** `fetchPrivateWorldStats`: the same record, marked private. */
    method FetchPrivateWorldStats(html: WorldStatsHtml, floatPath: FloatPath) returns (ws: WorldStats)
      requires WorldHtmlSafe(html)
      ensures ws == WorldStatsOf(timestamp, html, floatPath).(private := true)
    {
      ws := FetchWorldStats(html, floatPath);
      ws := ws.(private := true);
    }

    /** `fetchAllPublicWorldStats`: one record per public world, in order. */
    method FetchAllPublicWorldStats(page: WorldsPage, floatPath: FloatPath)
      requires WorldListSafe(page.publicWorlds)
      modifies this`log
      ensures log == old(log) + WorldRecords(timestamp, page.publicWorlds, floatPath, false)
    {
      var worlds := page.publicWorlds;
      var index := 0;
      while index < |worlds|
        invariant 0 <= index <= |worlds|
        invariant WorldListSafe(worlds[..index])
        invariant log == old(log) + WorldRecords(timestamp, worlds[..index], floatPath, false)
      {
        var ws := FetchWorldStats(worlds[index], floatPath);
        WorldRecordsSnoc(timestamp, worlds[..index], worlds[index], floatPath, false);
        assert worlds[..index] + [worlds[index]] == worlds[..index + 1];
        assert ws.(private := false) == ws by {
          WorldStatsFields(timestamp, worlds[index], floatPath);
        }
        AppendAssoc(old(log), WorldRecords(timestamp, worlds[..index], floatPath, false), [WorldRecord(ws)]);
        log := log + [WorldRecord(ws)];
        index := index + 1;
      }
      assert worlds[..index] == worlds;
    }

    /** `fetchAllPrivateWorldStats`: one private record per private world, in order. */
    method FetchAllPrivateWorldStats(page: WorldsPage, floatPath: FloatPath)
      requires WorldListSafe(page.privateWorlds)
      modifies this`log
      ensures log == old(log) + WorldRecords(timestamp, page.privateWorlds, floatPath, true)
    {
      var worlds := page.privateWorlds;
      var index := 0;
      while index < |worlds|
        invariant 0 <= index <= |worlds|
        invariant WorldListSafe(worlds[..index])
        invariant log == old(log) + WorldRecords(timestamp, worlds[..index], floatPath, true)
      {
        var ws := FetchPrivateWorldStats(worlds[index], floatPath);
        WorldRecordsSnoc(timestamp, worlds[..index], worlds[index], floatPath, true);
        assert worlds[..index] + [worlds[index]] == worlds[..index + 1];
        AppendAssoc(old(log), WorldRecords(timestamp, worlds[..index], floatPath, true), [WorldRecord(ws)]);
        log := log + [WorldRecord(ws)];
        index := index + 1;
      }
      assert worlds[..index] == worlds;
    }

    /** The nick loop of one section: a record per nick, in order. */
    method FetchSectionActivity(section: WorldSection)
      requires HeaderSafe(section.headerText)
      modifies this`log
      ensures log == old(log) + ListRecords(timestamp, OnlineListOf(section))
    {
      var worldName := ActivityWorldName(section.headerText);
      var nicks := Nicks(section.bodyText);
      ghost var list := OnlineList(worldName, nicks);
      var index := 0;
      while index < |nicks|
        invariant 0 <= index <= |nicks|
        invariant log == old(log) + ListRecords(timestamp, list)[..index]
      {
        var activity := CharacterActivity(0, "", "");
        activity := activity.(timestamp := timestamp);
        activity := activity.(world := worldName);
        activity := activity.(nick := nicks[index]);
        ListRecordsPrefix(timestamp, list, index);
        AppendAssoc(old(log), ListRecords(timestamp, list)[..index], [ActivityRecord(activity)]);
        log := log + [ActivityRecord(activity)];
        index := index + 1;
      }
      assert ListRecords(timestamp, list)[..index] == ListRecords(timestamp, list);
    }

    /** One pass of the loop over the overlay's children: the first child is
        skipped, any other is read as a section. */
    method FetchChildActivity(children: seq<WorldSection>, index: nat, ghost start: seq<StatsRecord>)
      requires SectionsSafe(children) && index < |children|
      requires log == start + ListsRecords(timestamp, OnlineListsUpTo(children, index))
      modifies this`log
      ensures log == start + ListsRecords(timestamp, OnlineListsUpTo(children, index + 1))
    {
      ActivityLogStep(start, timestamp, children, index);
      if index != 0 {
        FetchSectionActivity(children[index]);
      }
    }

    /** `fetchAllCharacterActivity`: every child of the overlay but the first, in order. */
    method FetchAllCharacterActivity(page: WorldsPage)
      requires SectionsSafe(page.overlayChildren)
      modifies this`log
      ensures log == old(log) + ActivityRecords(timestamp, page.overlayChildren)
    {
      var children := page.overlayChildren;
      var index := 0;
      while index < |children|
        invariant 0 <= index <= |children|
        invariant log == old(log) + ListsRecords(timestamp, OnlineListsUpTo(children, index))
      {
        FetchChildActivity(children, index, old(log));
        index := index + 1;
      }
      assert ActivityRecords(timestamp, children) == ListsRecords(timestamp, OnlineListsUpTo(children, index));
    }

    /** `scrapGeneralStats` as written: stamp the step, fetch and parse the statistics
        page, log its record; the deferred `Done` runs on every return. The download
        must have a response, since `getPageBody` reads it before the error check. */
    method ScrapGeneralStats(now: Timestamp, download: Download<StatsPage>, floatPath: FloatPath)
      requires StatsDownloadSafe(download)
      modifies this`timestamp, this`wg, this`log
      ensures timestamp == now && wg == old(wg) - 1
      ensures log == old(log) + GeneralStepRecords(now, download, floatPath)
    {
      timestamp := now;
      var doc := PageDocumentAsWritten(download);
      if doc.None? {
        wg := wg - 1;
        return;
      }
      FetchGeneralStats(doc.value, floatPath);
      wg := wg - 1;
    }

    /** `scrapWorldStats` as written: stamp the step, fetch and parse the worlds page,
        log the public worlds and then the private ones; `Done` runs on every return. */
    method ScrapWorldStats(now: Timestamp, download: Download<WorldsPage>, floatPath: FloatPath)
      requires WorldsDownloadSafe(download)
      modifies this`timestamp, this`wg, this`log
      ensures timestamp == now && wg == old(wg) - 1
      ensures log == old(log) + WorldStepRecords(now, download, floatPath)
    {
      timestamp := now;
      var doc := PageDocumentAsWritten(download);
      if doc.None? {
        wg := wg - 1;
        return;
      }
      LogWorlds(doc.value, floatPath);
      wg := wg - 1;
    }

    /** `scrapCharacterActivity` as written: stamp the step, fetch and parse the worlds
        page (a second time), log the online characters; `Done` runs on every return. */
    method ScrapCharacterActivity(now: Timestamp, download: Download<WorldsPage>)
      requires ActivityDownloadSafe(download)
      modifies this`timestamp, this`wg, this`log
      ensures timestamp == now && wg == old(wg) - 1
      ensures log == old(log) + ActivityStepRecords(now, download)
    {
      timestamp := now;
      var doc := PageDocumentAsWritten(download);
      if doc.None? {
        wg := wg - 1;
        return;
      }
      FetchAllCharacterActivity(doc.value);
      wg := wg - 1;
    }

    /** The two calls of `scrapWorldStats` once the page is parsed: the public worlds,
        then the private ones. */
    method LogWorlds(page: WorldsPage, floatPath: FloatPath)
      requires WorldListSafe(page.publicWorlds) && WorldListSafe(page.privateWorlds)
      modifies this`log
      ensures log == old(log) + WorldRecords(timestamp, page.publicWorlds, floatPath, false)
                     + WorldRecords(timestamp, page.privateWorlds, floatPath, true)
    {
      FetchAllPublicWorldStats(page, floatPath);
      FetchAllPrivateWorldStats(page, floatPath);
    }

    /** `Scrap` as written: three steps registered with `Add(3)`, run one after the
        other, each stamped with its own clock reading; every download has a response,
        the counter is back where it started, and `Wait` returns. */
    method Scrap(
      generalNow: Timestamp, statsPage: Download<StatsPage>,
      worldsNow: Timestamp, worldsPage: Download<WorldsPage>,
      activityNow: Timestamp, activityPage: Download<WorldsPage>,
      floatPath: FloatPath)
      requires StatsDownloadSafe(statsPage)
      requires WorldsDownloadSafe(worldsPage)
      requires ActivityDownloadSafe(activityPage)
      modifies this`timestamp, this`wg, this`log
      ensures wg == old(wg) && timestamp == activityNow
      ensures log == old(log) + GeneralStepRecords(generalNow, statsPage, floatPath)
                     + WorldStepRecords(worldsNow, worldsPage, floatPath)
                     + ActivityStepRecords(activityNow, activityPage)
    {
      wg := wg + 3;
      ScrapGeneralStats(generalNow, statsPage, floatPath);
      ScrapWorldStats(worldsNow, worldsPage, floatPath);
      ScrapCharacterActivity(activityNow, activityPage);
    }

    /** `scrapGeneralStats` with the response checked: a failed download takes the
        error branch, logs nothing and still releases the counter. */
    method ScrapGeneralStatsChecked(now: Timestamp, download: Download<StatsPage>, floatPath: FloatPath)
      requires StatsPageSafe(download)
      modifies this`timestamp, this`wg, this`log
      ensures timestamp == now && wg == old(wg) - 1
      ensures log == old(log) + GeneralStepRecords(now, download, floatPath)
    {
      timestamp := now;
      var body := PageDocument(download);
      if body.Err? || body.value.None? {
        wg := wg - 1;
        return;
      }
      FetchGeneralStats(body.value.value, floatPath);
      wg := wg - 1;
    }

    /** `scrapWorldStats` with the response checked. */
    method ScrapWorldStatsChecked(now: Timestamp, download: Download<WorldsPage>, floatPath: FloatPath)
      requires WorldsPageSafe(download)
      modifies this`timestamp, this`wg, this`log
      ensures timestamp == now && wg == old(wg) - 1
      ensures log == old(log) + WorldStepRecords(now, download, floatPath)
    {
      timestamp := now;
      var body := PageDocument(download);
      if body.Err? || body.value.None? {
        wg := wg - 1;
        return;
      }
      LogWorlds(body.value.value, floatPath);
      wg := wg - 1;
    }

    /** `scrapCharacterActivity` with the response checked. */
    method ScrapCharacterActivityChecked(now: Timestamp, download: Download<WorldsPage>)
      requires ActivityPageSafe(download)
      modifies this`timestamp, this`wg, this`log
      ensures timestamp == now && wg == old(wg) - 1
      ensures log == old(log) + ActivityStepRecords(now, download)
    {
      timestamp := now;
      var body := PageDocument(download);
      if body.Err? || body.value.None? {
        wg := wg - 1;
        return;
      }
      FetchAllCharacterActivity(body.value.value);
      wg := wg - 1;
    }

    /** `Scrap` over the checked steps: whatever the downloads, failed ones included,
        the counter returns to where it started, so `Wait` returns. */
    method ScrapChecked(
      generalNow: Timestamp, statsPage: Download<StatsPage>,
      worldsNow: Timestamp, worldsPage: Download<WorldsPage>,
      activityNow: Timestamp, activityPage: Download<WorldsPage>,
      floatPath: FloatPath)
      requires StatsPageSafe(statsPage)
      requires WorldsPageSafe(worldsPage)
      requires ActivityPageSafe(activityPage)
      modifies this`timestamp, this`wg, this`log
      ensures wg == old(wg) && timestamp == activityNow
      ensures log == old(log) + GeneralStepRecords(generalNow, statsPage, floatPath)
                     + WorldStepRecords(worldsNow, worldsPage, floatPath)
                     + ActivityStepRecords(activityNow, activityPage)
    {
      wg := wg + 3;
      ScrapGeneralStatsChecked(generalNow, statsPage, floatPath);
      ScrapWorldStatsChecked(worldsNow, worldsPage, floatPath);
      ScrapCharacterActivityChecked(activityNow, activityPage);
    }
  }
}
