/** The world ladder scraper (margonemscrapper/worldladderscrapper.go): the rules that
    turn one ladder table row into records, and the sequential bookkeeping of a run —
    the mode dispatch, the order in which rows are visited, the page loop with its
    retries and the WaitGroup counter. The database is an in-memory log of the records
    handed to `db.Create`; pages and fetch outcomes are inputs. */
module WorldLadder {
  import opened Results
  import opened GoStrings
  import opened GoStrconv
  import opened GoFmt

  /** A capture instant (`time.Time`); the model only copies it around. */
  type Timestamp = int

  /** The two values of `ScrapMode`. */
  const FullScrap: int := 0
  const LevelScrap: int := 1

  /** The ladder's class names (as UTF-8 bytes: "Łowca" starts with 0xC5 0x81) and the
      one-letter code stored for each. */
  const Classes: map<string, string> := map[
    "Tropiciel" := "t",
    "\U{C5}\U{81}owca" := "h",
    "Tancerz ostrzy" := "b",
    "Wojownik" := "w",
    "Paladyn" := "p",
    "Mag" := "m"
  ]

  /** Every class value a record can carry: a code, or empty for an unknown name. */
  const ClassCodes: set<string> := {"", "t", "h", "b", "w", "p", "m"}

  /** One `tr` of a ladder table as the selectors see it: the `href` of its first `a`
      (`None` when there is no anchor or no attribute) and the text of the first match
      of `.long-level`, `.long-ph`, `.long-players`, `.long-clan` and `.long-last-online`
      (empty when nothing matches). */
  datatype Row = Row(
    link: Option<string>,
    levelText: string,
    honorText: string,
    classText: string,
    clanText: string,
    lastOnlineText: string)

  /** A parsed ladder page: the text of the first `.total-pages` element and the rows
      of each `tbody`, in document order. */
  datatype Document = Document(totalPagesText: string, tbodies: seq<seq<Row>>)

  /** A downloaded page body, abstracted as what parsing it yields: a document, or
      `None` when `goquery.NewDocumentFromReader` fails on it. */
  datatype Body = Body(parsed: Option<Document>)

  /** One call of `getPageBody`: a body, or a failed request. */
  datatype FetchOutcome = Fetched(body: Body) | FetchFailed

  /** The `FullCharacter` row written for a character (upserted by world and id). */
  datatype FullCharacter = FullCharacter(
    timestamp: Timestamp,
    world: string,
    profileID: int,
    characterID: int,
    nick: string,
    level: int,
    classCode: string,
    honor: int,
    last: string)

  /** The `CharacterLevel` row appended for every sighting of a character. */
  datatype CharacterLevel = CharacterLevel(timestamp: Timestamp, world: string, characterID: int)

  /** What `db.Create` is given, in call order. */
  datatype LadderRecord = FullRecord(full: FullCharacter) | LevelRecord(level: CharacterLevel)

  /** The function stored in `processRow`: unset (nil) until `Init` picks one. */
  datatype RowHandler = NoHandler | ScrapFullRow | ScrapLevelRow

  // ----- Field extraction (worldladderscrapper.go:234-279) -----

  /** `fetchIDs`: profile and character id scanned from the first anchor's link. */
  function FetchIDs(row: Row): (r: Result<(int, int)>)
    ensures r.Ok? ==> row.link.Some? && ProfilePrefix <= row.link.value
    ensures r.Ok? ==> InRange(r.value.0, Bits64) && InRange(r.value.1, Bits64)
  {
    match row.link
    case None => Err
    case Some(link) => ScanProfileLink(link)
  }

  /** `fetchLevel`: the trimmed `.long-level` text as a 32-bit decimal. */
  function FetchLevel(row: Row): (r: Result<int>)
    ensures r.Ok? ==> InRange(r.value, Bits32)
    ensures ' ' in Trim(row.levelText, Whitespace) ==> r == Err
  {
    ParseIntAcceptsDigits(Trim(row.levelText, Whitespace), Bits32);
    ParseInt(Trim(row.levelText, Whitespace), Bits32)
  }

  /** `fetchHonor`: the trimmed `.long-ph` text as a 32-bit decimal. */
  function FetchHonor(row: Row): (r: Result<int>)
    ensures r.Ok? ==> InRange(r.value, Bits32)
    ensures ' ' in Trim(row.honorText, Whitespace) ==> r == Err
  {
    ParseIntAcceptsDigits(Trim(row.honorText, Whitespace), Bits32);
    ParseInt(Trim(row.honorText, Whitespace), Bits32)
  }

  /** `fetchClass`: the code of the trimmed `.long-players` text, or `""` (the zero
      value of a Go map lookup) for a name that is not in the map. It never fails. */
  function FetchClass(row: Row): (r: string)
    ensures r in ClassCodes
    ensures r != "" <==> Trim(row.classText, Whitespace) in Classes
  {
    var name := Trim(row.classText, Whitespace);
    if name in Classes then Classes[name] else ""
  }

  /** `fetchNick`: the trimmed `.long-clan` text; it never fails. */
  function FetchNick(row: Row): (r: string)
    ensures |r| <= |row.clanText|
    ensures r != [] ==> r[0] !in Whitespace && r[|r| - 1] !in Whitespace
  {
    TrimSpec(row.clanText, Whitespace);
    Trim(row.clanText, Whitespace)
  }

  /** `fetchLast`: the trimmed `.long-last-online` text; it never fails. */
  function FetchLast(row: Row): (r: string)
    ensures |r| <= |row.lastOnlineText|
    ensures r != [] ==> r[0] !in Whitespace && r[|r| - 1] !in Whitespace
  {
    TrimSpec(row.lastOnlineText, Whitespace);
    Trim(row.lastOnlineText, Whitespace)
  }

  /** `getTotalPagesFromDoc`: the trimmed `.total-pages` text as a 32-bit decimal, and
      0 when it is not one; it never reports an error. */
  function GetTotalPagesFromDoc(doc: Document): (n: int)
    ensures InRange(n, Bits32)
    ensures ParseInt(Trim(doc.totalPagesText, Whitespace), Bits32).Err? ==> n == 0
  {
    ParseInt(Trim(doc.totalPagesText, Whitespace), Bits32).ValueOr(0)
  }

  /** The `FullCharacter` that `fetchFullCharacter` fills in for `row`: the run's
      timestamp and world, and every field from its own extractor, each failed field
      left at zero. A failed id scan zeroes both ids and nothing else. */
  function FullCharacterOf(ts: Timestamp, world: string, row: Row): FullCharacter
  {
    var ids := FetchIDs(row).ValueOr((0, 0));
    FullCharacter(ts, world, ids.0, ids.1, FetchNick(row), FetchLevel(row).ValueOr(0),
                  FetchClass(row), FetchHonor(row).ValueOr(0), FetchLast(row))
  }

  /** What each field of `FullCharacterOf` holds: a failed id scan zeroes both ids, a
      failed level or honor is 0, an unknown class is empty, and nothing stops the
      record from being written. */
  lemma FullCharacterFields(ts: Timestamp, world: string, row: Row)
    ensures var fc := FullCharacterOf(ts, world, row);
      && fc.timestamp == ts && fc.world == world
      && (FetchIDs(row).Ok? ==> (fc.profileID, fc.characterID) == FetchIDs(row).value)
      && (FetchIDs(row).Err? ==> fc.profileID == 0 && fc.characterID == 0)
      && InRange(fc.level, Bits32) && InRange(fc.honor, Bits32)
      && (FetchLevel(row).Err? ==> fc.level == 0)
      && (FetchHonor(row).Err? ==> fc.honor == 0)
      && fc.classCode in ClassCodes
      && fc.nick == Trim(row.clanText, Whitespace) && fc.last == Trim(row.lastOnlineText, Whitespace)
  {
  }

  /** The `CharacterLevel` that `fetchCharacterLevel` fills in for `row`: the run's
      timestamp and world and the character id alone, 0 when the scan fails. */
  function CharacterLevelOf(ts: Timestamp, world: string, row: Row): CharacterLevel
  {
    CharacterLevel(ts, world, FetchIDs(row).ValueOr((0, 0)).1)
  }

  /** A `CharacterLevel` carries the run's timestamp and world and the character id of
      the row, 0 when the link does not scan. */
  lemma CharacterLevelFields(ts: Timestamp, world: string, row: Row)
    ensures var cl := CharacterLevelOf(ts, world, row);
      && cl.timestamp == ts && cl.world == world
      && (FetchIDs(row).Ok? ==> cl.characterID == FetchIDs(row).value.1)
      && (FetchIDs(row).Err? ==> cl.characterID == 0)
  {
  }

  // ----- Records written per row and per document (worldladderscrapper.go:168-174, 202-210) -----

  /** The record one call of the row handler writes. */
  function RowRecord(h: RowHandler, ts: Timestamp, world: string, row: Row): LadderRecord
    requires h != NoHandler
  {
    match h
    case ScrapFullRow => FullRecord(FullCharacterOf(ts, world, row))
    case ScrapLevelRow => LevelRecord(CharacterLevelOf(ts, world, row))
  }

  /** The records written by `Each(h)` over `rows`: one per row, in row order. */
  function HandlerRecords(h: RowHandler, ts: Timestamp, world: string, rows: seq<Row>): (r: seq<LadderRecord>)
    requires h != NoHandler
    ensures |r| == |rows|
  {
    seq(|rows|, i requires 0 <= i < |rows| => RowRecord(h, ts, world, rows[i]))
  }

  /** The records `scrapDocument` writes: for each `tbody`, the handler over every row,
      then `scrapLevel` over every row again. */
  function DocumentRecords(h: RowHandler, ts: Timestamp, world: string, tables: seq<seq<Row>>): seq<LadderRecord>
    requires h != NoHandler
  {
    if tables == [] then []
    else
      var rows := tables[|tables| - 1];
      DocumentRecords(h, ts, world, tables[..|tables| - 1])
        + HandlerRecords(h, ts, world, rows) + HandlerRecords(ScrapLevelRow, ts, world, rows)
  }

  /** The number of rows over all `tbody` elements. */
  function RowCount(tables: seq<seq<Row>>): nat
  {
    if tables == [] then 0 else RowCount(tables[..|tables| - 1]) + |tables[|tables| - 1]|
  }

  /** The number of `FullCharacter` records in a log. */
  function CountFull(log: seq<LadderRecord>): nat
  {
    if log == [] then 0 else CountFull(log[..|log| - 1]) + (if log[|log| - 1].FullRecord? then 1 else 0)
  }

  /** The number of `CharacterLevel` records in a log. */
  function CountLevel(log: seq<LadderRecord>): nat
  {
    if log == [] then 0 else CountLevel(log[..|log| - 1]) + (if log[|log| - 1].LevelRecord? then 1 else 0)
  }

  /** Counting distributes over appending logs. */
  lemma {:induction false} CountAppend(a: seq<LadderRecord>, b: seq<LadderRecord>)
    ensures CountFull(a + b) == CountFull(a) + CountFull(b)
    ensures CountLevel(a + b) == CountLevel(a) + CountLevel(b)
    decreases |b|
  {
    if b == [] {
      assert a + b == a;
    } else {
      var b' := b[..|b| - 1];
      assert (a + b)[..|a + b| - 1] == a + b';
      CountAppend(a, b');
    }
  }

  /** A handler writes one record per row, all of its own kind. */
  lemma {:induction false} HandlerCounts(h: RowHandler, ts: Timestamp, world: string, rows: seq<Row>)
    requires h != NoHandler
    ensures CountFull(HandlerRecords(h, ts, world, rows)) == if h == ScrapFullRow then |rows| else 0
    ensures CountLevel(HandlerRecords(h, ts, world, rows)) == if h == ScrapLevelRow then |rows| else 0
    decreases |rows|
  {
    if rows != [] {
      var init := rows[..|rows| - 1];
      HandlerCounts(h, ts, world, init);
      HandlerRecordsSnoc(h, ts, world, rows, |rows| - 1);
      assert rows[..|rows| - 1] == init && rows[..|rows|] == rows;
      CountAppend(HandlerRecords(h, ts, world, init), [RowRecord(h, ts, world, rows[|rows| - 1])]);
    }
  }

  /** In `FullScrap` mode a document yields one `FullCharacter` and one
      `CharacterLevel` per row; in `LevelScrap` mode it yields two `CharacterLevel`
      records per row and no `FullCharacter`. */
  lemma {:induction false} DocumentCounts(h: RowHandler, ts: Timestamp, world: string, tables: seq<seq<Row>>)
    requires h != NoHandler
    ensures h == ScrapFullRow ==>
              CountFull(DocumentRecords(h, ts, world, tables)) == RowCount(tables)
              && CountLevel(DocumentRecords(h, ts, world, tables)) == RowCount(tables)
    ensures h == ScrapLevelRow ==>
              CountFull(DocumentRecords(h, ts, world, tables)) == 0
              && CountLevel(DocumentRecords(h, ts, world, tables)) == 2 * RowCount(tables)
    decreases |tables|
  {
    if tables != [] {
      var init := tables[..|tables| - 1];
      var rows := tables[|tables| - 1];
      DocumentCounts(h, ts, world, init);
      HandlerCounts(h, ts, world, rows);
      HandlerCounts(ScrapLevelRow, ts, world, rows);
      var a := DocumentRecords(h, ts, world, init);
      var b := HandlerRecords(h, ts, world, rows);
      var c := HandlerRecords(ScrapLevelRow, ts, world, rows);
      CountAppend(a, b);
      CountAppend(a + b, c);
    }
  }

  /** No row is skipped: whatever its fields hold, every row of every `tbody` gets the
      record of the mode's handler and a `CharacterLevel` record. */
  lemma {:induction false} EveryRowRecorded(h: RowHandler, ts: Timestamp, world: string,
                                            tables: seq<seq<Row>>, t: int, i: int)
    requires h != NoHandler
    requires 0 <= t < |tables| && 0 <= i < |tables[t]|
    ensures RowRecord(h, ts, world, tables[t][i]) in DocumentRecords(h, ts, world, tables)
    ensures RowRecord(ScrapLevelRow, ts, world, tables[t][i]) in DocumentRecords(h, ts, world, tables)
    decreases |tables|
  {
    var n := |tables| - 1;
    var init := DocumentRecords(h, ts, world, tables[..n]);
    var handled := HandlerRecords(h, ts, world, tables[n]);
    var levels := HandlerRecords(ScrapLevelRow, ts, world, tables[n]);
    assert DocumentRecords(h, ts, world, tables) == init + handled + levels;
    if t < n {
      assert tables[..n][t] == tables[t];
      EveryRowRecorded(h, ts, world, tables[..n], t, i);
    } else {
      assert handled[i] == RowRecord(h, ts, world, tables[t][i]);
      assert levels[i] == RowRecord(ScrapLevelRow, ts, world, tables[t][i]);
    }
  }

  /** A row whose link does not scan is still written in `FullScrap` mode, with both
      ids 0, together with a `CharacterLevel` of id 0. */
  lemma BadLinkStillRecorded(ts: Timestamp, world: string, tables: seq<seq<Row>>, t: int, i: int)
    requires 0 <= t < |tables| && 0 <= i < |tables[t]| && FetchIDs(tables[t][i]).Err?
    ensures exists fc :: FullRecord(fc) in DocumentRecords(ScrapFullRow, ts, world, tables)
                         && fc == FullCharacterOf(ts, world, tables[t][i])
                         && fc.profileID == 0 && fc.characterID == 0
    ensures LevelRecord(CharacterLevel(ts, world, 0)) in DocumentRecords(ScrapFullRow, ts, world, tables)
  {
    EveryRowRecorded(ScrapFullRow, ts, world, tables, t, i);
    FullCharacterFields(ts, world, tables[t][i]);
    CharacterLevelFields(ts, world, tables[t][i]);
  }

  // ----- Example inputs -----

  /** A row whose first anchor links to a well-formed profile gives back both ids;
      a row without a link gives an error. */
  lemma FetchIDsRoundTrip(row: Row, p: int, c: int, tail: string)
    requires InRange(p, Bits64) && InRange(c, Bits64)
    requires tail == [] || !IsDigit(tail[0])
    ensures FetchIDs(row.(link := Some(ProfileLink(p, c) + tail))) == Ok((p, c))
    ensures FetchIDs(row.(link := None)) == Err
  {
    ScanProfileLinkRoundTrip(p, c, tail);
  }

  /** An int32 printed and padded with newlines, tabs and spaces is what the trim-then-
      parse of the extractors reads back. */
  lemma PaddedInt32(n: int, before: string, after: string)
    requires InRange(n, Bits32)
    requires forall i :: 0 <= i < |before| ==> before[i] in Whitespace
    requires forall i :: 0 <= i < |after| ==> after[i] in Whitespace
    ensures ParseInt(Trim(before + FormatInt(n) + after, Whitespace), Bits32) == Ok(n)
  {
    var f := FormatInt(n);
    assert f[|f| - 1] != ' ' && f[|f| - 1] != '\n' && f[|f| - 1] != '\t' by {
      if n < 0 {
        assert f[|f| - 1] == FormatDecimal(-n)[|FormatDecimal(-n)| - 1];
      }
    }
    TrimPadded(before, f, after, Whitespace);
    ParseFormat(n, Bits32);
  }

  /** Level text padded with newlines, tabs and spaces reads back as the number
      printed. */
  lemma FetchLevelRoundTrip(row: Row, n: int, before: string, after: string)
    requires InRange(n, Bits32)
    requires forall i :: 0 <= i < |before| ==> before[i] in Whitespace
    requires forall i :: 0 <= i < |after| ==> after[i] in Whitespace
    requires row.levelText == before + FormatInt(n) + after
    ensures FetchLevel(row) == Ok(n)
  {
    PaddedInt32(n, before, after);
  }

  /** The page count printed and padded with white space is read back, so every
      count from 1 up to the int32 limit reaches `getPageBodies` unchanged. */
  lemma GetTotalPagesRoundTrip(doc: Document, n: int, before: string, after: string)
    requires InRange(n, Bits32)
    requires forall i :: 0 <= i < |before| ==> before[i] in Whitespace
    requires forall i :: 0 <= i < |after| ==> after[i] in Whitespace
    requires doc.totalPagesText == before + FormatInt(n) + after
    ensures GetTotalPagesFromDoc(doc) == n
  {
    PaddedInt32(n, before, after);
  }

  /** A row whose ids are read has a link made of exactly the parts of the scan
      format; every other link, including one whose profile number alone scans, gives
      the error that zeroes both ids. */
  lemma FetchIDsWellFormed(row: Row)
    requires FetchIDs(row).Ok?
    ensures row.link.Some?
    ensures exists s1, d1, s2, d2, tail ::
              ProfileLinkParts(row.link.value, FetchIDs(row).value.0, FetchIDs(row).value.1, s1, d1, s2, d2, tail)
  {
    ScanProfileLinkWellFormed(row.link.value);
  }

  /** Honor text padded with newlines, tabs and spaces reads back as the number
      printed. */
  lemma FetchHonorRoundTrip(row: Row, n: int, before: string, after: string)
    requires InRange(n, Bits32)
    requires forall i :: 0 <= i < |before| ==> before[i] in Whitespace
    requires forall i :: 0 <= i < |after| ==> after[i] in Whitespace
    requires row.honorText == before + FormatInt(n) + after
    ensures FetchHonor(row) == Ok(n)
  {
    FetchLevelRoundTrip(row.(levelText := row.honorText), n, before, after);
  }

  /** Distinct class names have distinct codes, so a code names one class. */
  lemma ClassCodesDistinct(a: string, b: string)
    requires a in Classes && b in Classes && a != b
    ensures Classes[a] != Classes[b]
  {
  }

  // ----- The sequential bookkeeping of a run -----

  /** The bodies of the successful fetches, in order. */
  function FetchedBodies(attempts: seq<FetchOutcome>): (bodies: seq<Body>)
    ensures |bodies| <= |attempts|
  {
    if attempts == [] then []
    else
      var last := attempts[|attempts| - 1];
      FetchedBodies(attempts[..|attempts| - 1]) + (if last.Fetched? then [last.body] else [])
  }

  /** The documents of the bodies that parse, in order: what `getPageDocuments` passes on. */
  function ParsedDocs(bodies: seq<Body>): (docs: seq<Document>)
    ensures |docs| <= |bodies|
    ensures |docs| == |bodies| <==> forall j :: 0 <= j < |bodies| ==> bodies[j].parsed.Some?
  {
    if bodies == [] then []
    else
      var last := bodies[|bodies| - 1];
      var init := bodies[..|bodies| - 1];
      var r := ParsedDocs(init) + (if last.parsed.Some? then [last.parsed.value] else []);
      assert (forall j :: 0 <= j < |bodies| ==> bodies[j].parsed.Some?) <==>
             (forall j :: 0 <= j < |init| ==> init[j].parsed.Some?) && last.parsed.Some?;
      r
  }

  /** The records `scrapDocuments` writes for a sequence of documents. */
  function DocsRecords(h: RowHandler, ts: Timestamp, world: string, docs: seq<Document>): seq<LadderRecord>
    requires h != NoHandler
  {
    if docs == [] then []
    else DocsRecords(h, ts, world, docs[..|docs| - 1]) + DocumentRecords(h, ts, world, docs[|docs| - 1].tbodies)
  }

  /** One more row adds that row's records at the end. */
  lemma HandlerRecordsSnoc(h: RowHandler, ts: Timestamp, world: string, rows: seq<Row>, i: nat)
    requires h != NoHandler && i < |rows|
    ensures HandlerRecords(h, ts, world, rows[..i + 1])
            == HandlerRecords(h, ts, world, rows[..i]) + [RowRecord(h, ts, world, rows[i])]
  {
    var longer := HandlerRecords(h, ts, world, rows[..i + 1]);
    var shorter := HandlerRecords(h, ts, world, rows[..i]);
    var extended := shorter + [RowRecord(h, ts, world, rows[i])];
    assert |longer| == |extended| == i + 1;
    forall j | 0 <= j < i + 1
      ensures longer[j] == extended[j]
    {
      assert longer[j] == RowRecord(h, ts, world, rows[j]);
      if j < i {
        assert shorter[j] == RowRecord(h, ts, world, rows[j]);
      }
    }
  }

  /** One more `tbody` adds the records of its rows at the end. */
  lemma DocumentRecordsSnoc(h: RowHandler, ts: Timestamp, world: string, tables: seq<seq<Row>>, t: nat)
    requires h != NoHandler && t < |tables|
    ensures DocumentRecords(h, ts, world, tables[..t + 1])
            == DocumentRecords(h, ts, world, tables[..t])
               + HandlerRecords(h, ts, world, tables[t]) + HandlerRecords(ScrapLevelRow, ts, world, tables[t])
  {
    assert tables[..t + 1][..t] == tables[..t];
  }

  /** One more document adds its records at the end. */
  lemma DocsRecordsSnoc(h: RowHandler, ts: Timestamp, world: string, docs: seq<Document>, d: nat)
    requires h != NoHandler && d < |docs|
    ensures DocsRecords(h, ts, world, docs[..d + 1])
            == DocsRecords(h, ts, world, docs[..d]) + DocumentRecords(h, ts, world, docs[d].tbodies)
  {
    assert docs[..d + 1][..d] == docs[..d];
  }

  /** A body that does not parse is missing from the documents passed on, so the run
      scrapes fewer documents than it fetched pages. */
  lemma {:induction false} UnparsedPageLeavesCounter(bodies: seq<Body>, j: int)
    requires 0 <= j < |bodies| && bodies[j].parsed.None?
    ensures |ParsedDocs(bodies)| < |bodies|
    decreases |bodies|
  {
    var n := |bodies| - 1;
    assert ParsedDocs(bodies) == ParsedDocs(bodies[..n]) + (if bodies[n].parsed.Some? then [bodies[n].parsed.value] else []);
    if j < n {
      assert bodies[..n][j] == bodies[j];
      UnparsedPageLeavesCounter(bodies[..n], j);
    }
  }

  class WorldLadderScrapper {
    var world: string
    var processRow: RowHandler
    var wg: int
    var timestamp: Timestamp
    /** The records handed to `db.Create`, oldest first. */
    var log: seq<LadderRecord>

    /** `New()`: every field at its zero value. */
    constructor ()
      ensures world == "" && processRow == NoHandler && wg == 0 && timestamp == 0 && log == []
    {
      world := "";
      processRow := NoHandler;
      wg := 0;
      timestamp := 0;
      log := [];
    }

    /** `Init`: records the world and picks the row handler for the mode; a mode that is
        neither `FullScrap` nor `LevelScrap` leaves the handler as it was. */
    method Init(world: string, mode: int)
      modifies this
      ensures this.world == world
      ensures processRow == if mode == FullScrap then ScrapFullRow
                            else if mode == LevelScrap then ScrapLevelRow
                            else old(processRow)
      ensures wg == old(wg) && timestamp == old(timestamp) && log == old(log)
    {
      this.world := world;
      if mode == FullScrap {
        processRow := ScrapFullRow;
      } else if mode == LevelScrap {
        processRow := ScrapLevelRow;
      }
    }

    /** `fetchFullCharacter`: fills a zero `FullCharacter` field by field. */
    method FetchFullCharacter(row: Row) returns (fc: FullCharacter)
      ensures fc == FullCharacterOf(timestamp, world, row)
    {
      fc := FullCharacter(0, "", 0, 0, "", 0, "", 0, "");
      fc := fc.(timestamp := timestamp);
      fc := fc.(world := world);
      var ids := FetchIDs(row).ValueOr((0, 0));
      fc := fc.(profileID := ids.0, characterID := ids.1);
      fc := fc.(nick := FetchNick(row));
      fc := fc.(level := FetchLevel(row).ValueOr(0));
      fc := fc.(honor := FetchHonor(row).ValueOr(0));
      fc := fc.(classCode := FetchClass(row));
      fc := fc.(last := FetchLast(row));
    }

    /** `fetchCharacterLevel`: fills a zero `CharacterLevel` field by field. */
    method FetchCharacterLevel(row: Row) returns (cl: CharacterLevel)
      ensures cl == CharacterLevelOf(timestamp, world, row)
    {
      cl := CharacterLevel(0, "", 0);
      cl := cl.(timestamp := timestamp);
      cl := cl.(world := world);
      var ids := FetchIDs(row).ValueOr((0, 0));
      cl := cl.(characterID := ids.1);
    }

    /** `scrapFull`: writes the row's `FullCharacter`. */
    method ScrapFull(row: Row)
      modifies this`log
      ensures log == old(log) + [FullRecord(FullCharacterOf(timestamp, world, row))]
    {
      var fc := FetchFullCharacter(row);
      log := log + [FullRecord(fc)];
    }

    /** `scrapLevel`: writes the row's `CharacterLevel`. */
    method ScrapLevel(row: Row)
      modifies this`log
      ensures log == old(log) + [LevelRecord(CharacterLevelOf(timestamp, world, row))]
    {
      var cl := FetchCharacterLevel(row);
      log := log + [LevelRecord(cl)];
    }

    /** A call through the `processRow` field; calling it while nil would panic. */
    method ProcessRow(row: Row)
      requires processRow != NoHandler
      modifies this`log
      ensures log == old(log) + [RowRecord(processRow, timestamp, world, row)]
    {
      match processRow
      case ScrapFullRow => ScrapFull(row);
      case ScrapLevelRow => ScrapLevel(row);
    }

    /** `table.Find("tr").Each(wls.processRow)`: the row handler on every row in order. */
    method EachProcessRow(rows: seq<Row>)
      requires processRow != NoHandler
      modifies this`log
      ensures log == old(log) + HandlerRecords(processRow, timestamp, world, rows)
    {
      var h, ts, w := processRow, timestamp, world;
      var i := 0;
      while i < |rows|
        invariant 0 <= i <= |rows|
        invariant log == old(log) + HandlerRecords(h, ts, w, rows[..i])
      {
        ProcessRow(rows[i]);
        HandlerRecordsSnoc(h, ts, w, rows, i);
        i := i + 1;
      }
      assert rows[..|rows|] == rows;
    }

    /** `table.Find("tr").Each(wls.scrapLevel)`: `scrapLevel` on every row in order. */
    method EachScrapLevel(rows: seq<Row>)
      modifies this`log
      ensures log == old(log) + HandlerRecords(ScrapLevelRow, timestamp, world, rows)
    {
      var i := 0;
      while i < |rows|
        invariant 0 <= i <= |rows|
        invariant log == old(log) + HandlerRecords(ScrapLevelRow, timestamp, world, rows[..i])
      {
        ScrapLevel(rows[i]);
        HandlerRecordsSnoc(ScrapLevelRow, timestamp, world, rows, i);
        i := i + 1;
      }
      assert rows[..|rows|] == rows;
    }

    /** `scrapDocument`: for each `tbody`, the handler over every row, then
        `scrapLevel` over every row; then one `wg.Done()`, which would panic on a zero
        counter. */
    method ScrapDocument(doc: Document)
      requires wg >= 1
      requires processRow != NoHandler
      modifies this`log, this`wg
      ensures wg == old(wg) - 1
      ensures log == old(log) + DocumentRecords(processRow, timestamp, world, doc.tbodies)
    {
      var tables := doc.tbodies;
      var h, ts, w := processRow, timestamp, world;
      var t := 0;
      while t < |tables|
        invariant 0 <= t <= |tables| && wg == old(wg)
        invariant log == old(log) + DocumentRecords(h, ts, w, tables[..t])
      {
        ghost var done := DocumentRecords(h, ts, w, tables[..t]);
        EachProcessRow(tables[t]);
        EachScrapLevel(tables[t]);
        ghost var handled := HandlerRecords(h, ts, w, tables[t]);
        ghost var levels := HandlerRecords(ScrapLevelRow, ts, w, tables[t]);
        assert log == old(log) + done + handled + levels;
        DocumentRecordsSnoc(h, ts, w, tables, t);
        AppendAssoc(old(log), done + handled, levels);
        AppendAssoc(old(log), done, handled);
        t := t + 1;
      }
      assert tables[..|tables|] == tables;
      wg := wg - 1;
    }

    /** `Scrap`, lines 100-110: stamps the run, then `wg.Add(1)`, `wg.Add(totalPages)`
        and `wg.Done()`, so the counter grows by exactly the page count read from the
        first page. A count that would take the counter below zero panics. */
    method StartRun(now: Timestamp, firstPage: Document) returns (totalPages: int)
      requires wg >= 0 && wg + GetTotalPagesFromDoc(firstPage) >= 0
      modifies this`timestamp, this`wg
      ensures timestamp == now
      ensures totalPages == GetTotalPagesFromDoc(firstPage)
      ensures wg == old(wg) + totalPages
    {
      timestamp := now;
      wg := wg + 1;
      totalPages := GetTotalPagesFromDoc(firstPage);
      wg := wg + totalPages;
      wg := wg - 1;
    }

    /** `getPageBodies`: asks for pages 1 to `totalPages`, one attempt at a time, each
        attempt consuming the next fetch outcome; a failed fetch asks for the same page
        again (`i--; continue`). The Go loop retries forever; here it also stops when
        the outcomes run out, and `finished` tells the two apart. `requested` is the
        page asked for by each attempt, `sent` the page of each body sent on. */
    method GetPageBodies(totalPages: int, attempts: seq<FetchOutcome>)
      returns (bodies: seq<Body>, sent: seq<int>, requested: seq<int>, finished: bool)
      ensures |requested| <= |attempts|
      ensures bodies == FetchedBodies(attempts[..|requested|])
      ensures forall k :: 0 <= k < |requested| ==>
                requested[k] == 1 + |FetchedBodies(attempts[..k])| && requested[k] <= totalPages
      ensures |sent| == |bodies| && forall j :: 0 <= j < |sent| ==> sent[j] == j + 1
      ensures finished <==> |bodies| == if totalPages > 0 then totalPages else 0
      ensures |bodies| <= if totalPages > 0 then totalPages else 0
      ensures !finished ==> |requested| == |attempts|
    {
      bodies, sent, requested := [], [], [];
      var i := 1;
      var k := 0;
      while i <= totalPages && k < |attempts|
        invariant 0 <= k <= |attempts| && |requested| == k
        invariant i == 1 + |bodies| && (totalPages >= 1 ==> i <= totalPages + 1)
        invariant bodies == FetchedBodies(attempts[..k])
        invariant forall j :: 0 <= j < k ==>
                    requested[j] == 1 + |FetchedBodies(attempts[..j])| && requested[j] <= totalPages
        invariant |sent| == |bodies| && forall j :: 0 <= j < |sent| ==> sent[j] == j + 1
        decreases |attempts| - k
      {
        requested := requested + [i];
        var outcome := attempts[k];
        assert attempts[..k + 1][..k] == attempts[..k];
        k := k + 1;
        if outcome.FetchFailed? {
          i := i - 1;
        } else {
          bodies := bodies + [outcome.body];
          sent := sent + [i];
        }
        i := i + 1;
      }
      finished := i > totalPages;
    }

    /** `getPageDocuments`: passes on the document of every body that parses and drops
        the others. */
    method GetPageDocuments(bodies: seq<Body>) returns (docs: seq<Document>)
      ensures docs == ParsedDocs(bodies)
    {
      docs := [];
      var j := 0;
      while j < |bodies|
        invariant 0 <= j <= |bodies|
        invariant docs == ParsedDocs(bodies[..j])
      {
        assert bodies[..j + 1][..j] == bodies[..j];
        var parsed := bodies[j].parsed;
        j := j + 1;
        if parsed.None? {
          continue;
        }
        docs := docs + [parsed.value];
      }
      assert bodies[..|bodies|] == bodies;
    }

    /** `scrapDocuments`: `scrapDocument` on every document in turn. */
    method ScrapDocuments(docs: seq<Document>)
      requires wg >= |docs|
      requires processRow != NoHandler
      modifies this`log, this`wg
      ensures wg == old(wg) - |docs|
      ensures log == old(log) + DocsRecords(processRow, timestamp, world, docs)
    {
      var h, ts, w := processRow, timestamp, world;
      var d := 0;
      while d < |docs|
        invariant 0 <= d <= |docs|
        invariant wg == old(wg) - d
        invariant log == old(log) + DocsRecords(h, ts, w, docs[..d])
      {
        ghost var done := DocsRecords(h, ts, w, docs[..d]);
        ScrapDocument(docs[d]);
        ghost var next := DocumentRecords(h, ts, w, docs[d].tbodies);
        DocsRecordsSnoc(h, ts, w, docs, d);
        AppendAssoc(old(log), done, next);
        d := d + 1;
      }
      assert docs[..|docs|] == docs;
    }

    /** One run of `Scrap` with its three stages run one after the other: the counter
        ends above where it started by the number of pages not scraped, so it returns to
        its start, and `wg.Wait()` returns, exactly when every page was fetched and every
        body parsed. */
    method Scrap(now: Timestamp, firstPage: Document, attempts: seq<FetchOutcome>)
      returns (bodies: seq<Body>, requested: seq<int>, finished: bool)
      requires wg >= 0 && wg + GetTotalPagesFromDoc(firstPage) >= 0
      requires processRow != NoHandler
      modifies this`timestamp, this`wg, this`log
      ensures timestamp == now
      ensures |requested| <= |attempts| && bodies == FetchedBodies(attempts[..|requested|])
      ensures finished <==> |bodies| == if GetTotalPagesFromDoc(firstPage) > 0 then GetTotalPagesFromDoc(firstPage) else 0
      ensures wg == old(wg) + GetTotalPagesFromDoc(firstPage) - |ParsedDocs(bodies)|
      ensures GetTotalPagesFromDoc(firstPage) >= 0 ==>
                (wg == old(wg) <==> finished && forall j :: 0 <= j < |bodies| ==> bodies[j].parsed.Some?)
      ensures log == old(log) + DocsRecords(processRow, now, world, ParsedDocs(bodies))
    {
      var totalPages := StartRun(now, firstPage);
      var sent;
      bodies, sent, requested, finished := GetPageBodies(totalPages, attempts);
      var docs := GetPageDocuments(bodies);
      ScrapDocuments(docs);
    }

    /** `getPageDocuments` as evidently intended: a body that does not parse is
        dropped with a `wg.Done()`, as if its page had been scraped. */
    method GetPageDocumentsReleasing(bodies: seq<Body>) returns (docs: seq<Document>)
      requires wg >= |bodies|
      modifies this`wg
      ensures docs == ParsedDocs(bodies)
      ensures wg == old(wg) - (|bodies| - |docs|)
    {
      docs := [];
      var j := 0;
      while j < |bodies|
        invariant 0 <= j <= |bodies|
        invariant docs == ParsedDocs(bodies[..j])
        invariant wg == old(wg) - (j - |docs|)
      {
        assert bodies[..j + 1][..j] == bodies[..j];
        var parsed := bodies[j].parsed;
        j := j + 1;
        if parsed.None? {
          wg := wg - 1;
          continue;
        }
        docs := docs + [parsed.value];
      }
      assert bodies[..|bodies|] == bodies;
    }

    /** `Scrap` with the corrected document stage: once every page is fetched the
        counter is back where it started, whether or not every body parses, so
        `wg.Wait()` returns. */
    method ScrapReleasing(now: Timestamp, firstPage: Document, attempts: seq<FetchOutcome>)
      returns (bodies: seq<Body>, requested: seq<int>, finished: bool)
      requires wg >= 0 && wg + GetTotalPagesFromDoc(firstPage) >= 0
      requires processRow != NoHandler
      modifies this`timestamp, this`wg, this`log
      ensures timestamp == now
      ensures |requested| <= |attempts| && bodies == FetchedBodies(attempts[..|requested|])
      ensures finished <==> |bodies| == if GetTotalPagesFromDoc(firstPage) > 0 then GetTotalPagesFromDoc(firstPage) else 0
      ensures wg == old(wg) + GetTotalPagesFromDoc(firstPage) - |bodies|
      ensures GetTotalPagesFromDoc(firstPage) >= 0 ==> (wg == old(wg) <==> finished)
      ensures log == old(log) + DocsRecords(processRow, now, world, ParsedDocs(bodies))
    {
      var totalPages := StartRun(now, firstPage);
      var sent;
      bodies, sent, requested, finished := GetPageBodies(totalPages, attempts);
      assert wg == old(wg) + totalPages && wg >= |bodies|;
      var docs := GetPageDocumentsReleasing(bodies);
      assert wg == old(wg) + totalPages - |bodies| + |docs|;
      ScrapDocuments(docs);
      assert totalPages >= 0 ==> (finished <==> |bodies| == totalPages);
    }
  }
}
