# m-scrapper in Dafny

This project models the two scrapers of m-scrapper, a Go program that collects data
about the game Margonem.

- The **world ladder scraper** (`margonemscrapper/worldladderscrapper.go`) reads a world's
  ranking pages. It turns every table row into a `FullCharacter` and/or a `CharacterLevel`
  record. The model covers:
  - the field extractors (`fetchIDs` with its `Sscanf` pattern, `fetchLevel`,
    `fetchHonor`, `fetchClass`, `fetchNick`, `fetchLast`, `getTotalPagesFromDoc`);
  - the mode dispatch of `Init`;
  - the row order of `scrapDocument`;
  - the page loop of `getPageBodies` with its retries;
  - the `WaitGroup` counter of `Scrap`, as a plain integer.
- The **statistics scraper** (`margonemscrapper/statsscrapper.go`) reads the server
  statistics and the world list. The model covers:
  - the three integer parsers (`fetchNumber`, `fetchNumberWithPercent` and
    `fetchNumberWithSuffix`) and `trim`;
  - the index dispatch that fills `GeneralStats` and `WorldStats`;
  - the world-name and nick splitting of `fetchAllCharacterActivity`;
  - the three scrap steps and `Scrap`, with their time stamps and counter.

How the model represents the program:
- A Go string is a Dafny `string` with one `char` per byte. This matters because the Go
  code slices by bytes: `text[:len(text)-5]` and `worldName[1:]`.
- The Go library calls the scrapers depend on are written out as functions:
  - in `GoStrings`: `strings.Trim`, `TrimRight`, `ReplaceAll`, `Replace(_, _, _, 1)`,
    `Split` and the ASCII part of `Title`;
  - in `GoStrconv`: `strconv.ParseInt` and `Itoa`;
  - in `GoRegexp`: the two regular expressions;
  - in `GoFmt`: the one `Sscanf` format.
- An error return is `Result.Err`, and a caller that drops the error reads
  `ValueOr(0)`.
- A Go panic (a slice out of range, a call through a nil function field, a negative
  `WaitGroup` counter) is a precondition.
- goquery selections become the texts the selectors would return.
- `db.Create` becomes appending to a `log` field of the scraper class.
- HTTP results become inputs:
  - the ladder receives a sequence of fetch outcomes;
  - each statistics step receives one `Download`.

## Model

| member | source | states |
|---|---|---|
| GoStrings.TrimSpec | margonemscrapper/worldladderscrapper.go:177 | `strings.Trim(s, "\n\t ")` removes a run of cutset bytes from each end and nothing else: the result is `s[i..j]`, every byte outside `[i, j)` is in the cutset, and the result's ends are not |
| GoStrings.TrimIdempotent | margonemscrapper/statsscrapper.go:278-280 | trimming twice is trimming once |
| GoStrings.TrimPadded | margonemscrapper/worldladderscrapper.go:235 | text with no cutset byte at its ends, padded with cutset bytes on both sides, trims back to itself |
| GoStrings.RemoveAllAppend | margonemscrapper/statsscrapper.go:270 | `ReplaceAll(s, " ", "")` distributes over concatenation |
| GoStrings.JoinSplit | margonemscrapper/statsscrapper.go:186 | joining the pieces of `strings.Split(s, sep)` with `sep` gives `s` back |
| GoStrings.SplitPiecesFree | margonemscrapper/statsscrapper.go:186 | no piece of `strings.Split(s, sep)` contains `sep` |
| GoStrings.SplitEmpty | margonemscrapper/statsscrapper.go:186 | splitting the empty string gives one empty piece |
| GoStrings.TitleIdempotent | margonemscrapper/statsscrapper.go:216 | `strings.Title` applied twice equals applying it once (ASCII) |
| GoStrconv.ParseInt | margonemscrapper/worldladderscrapper.go:236 | every value `ParseInt(s, 10, bits)` accepts fits the bit size |
| GoStrconv.ParseIntAcceptsDigits | margonemscrapper/statsscrapper.go:252 | only a non-empty text of digits, with an optional sign in front, is accepted |
| GoStrconv.ParseFormat | margonemscrapper/statsscrapper.go:271 | `ParseInt` reads back every in-range number `Itoa` writes |
| GoStrconv.ParseIntRejectsInnerSpace | margonemscrapper/worldladderscrapper.go:236 | any text with a space in it is an error, so `"12 345"` fails a plain int32 parse |
| GoRegexp.MatchesTysLength | margonemscrapper/statsscrapper.go:244 | a match of `tys.` needs at least four bytes |
| GoRegexp.FindColonPrefix | margonemscrapper/statsscrapper.go:180-183 | the `^.+:` match is empty, or is a prefix of at least two bytes that ends in a colon |
| GoRegexp.FindColonPrefixSpec | margonemscrapper/statsscrapper.go:180-183 | the match holds no newline, and no colon follows it on the first line, so it is the longest match |
| GoFmt.ScanProfileLink | margonemscrapper/worldladderscrapper.go:272 | a successful scan means the link starts with `/profile/view,` and both numbers fit 64 bits |
| GoFmt.ScanProfileLinkRoundTrip | margonemscrapper/worldladderscrapper.go:272-275 | a well-formed link scans back to both ids, whatever follows that does not extend the second number |
| GoFmt.ScanProfileLinkExample | margonemscrapper/worldladderscrapper.go:272 | `/profile/view,42#char_7` scans to `(42, 7)` |
| GoFmt.ScanProfileLinkRejectsNonNumber | margonemscrapper/worldladderscrapper.go:272-278 | a profile id that is not a number fails the whole scan |
| GoFmt.ScanIntParts | margonemscrapper/worldladderscrapper.go:272 | a `%d` that succeeds has read white space, then a token `ParseInt` accepts with the value returned, and stops before a digit |
| GoFmt.ScanProfileLinkWellFormed | margonemscrapper/worldladderscrapper.go:272-278 | the converse of the round trip: a link that scans is exactly the prefix, white space, the first number, `#char_`, white space, the second number, and a tail that does not start with a digit |
| GoFmt.ScanProfileLinkNeedsMarker | margonemscrapper/worldladderscrapper.go:272-278 | when the text after the first number does not start with `#char_`, the scan fails even though the profile number was read |
| WorldLadder.FetchIDs | margonemscrapper/worldladderscrapper.go:268-279 | success implies an `href` is present, starts with the profile prefix, and both ids fit 64 bits |
| WorldLadder.FetchIDsRoundTrip | margonemscrapper/worldladderscrapper.go:268-279 | a well-formed link gives `(p, c)`; a missing `href` gives an error |
| WorldLadder.FetchIDsWellFormed | margonemscrapper/worldladderscrapper.go:268-279 | ids are read only from a link made of exactly the parts of the scan format; any other link gives the error that zeroes both ids |
| WorldLadder.FetchLevel | margonemscrapper/worldladderscrapper.go:234-243 | the level fits int32, and trimmed text with a space inside is an error |
| WorldLadder.FetchLevelRoundTrip | margonemscrapper/worldladderscrapper.go:234-243 | any int32 written out and padded with `\n`, `\t` or spaces reads back |
| WorldLadder.FetchHonor | margonemscrapper/worldladderscrapper.go:245-254 | the honor fits int32, and trimmed text with a space inside is an error |
| WorldLadder.FetchHonorRoundTrip | margonemscrapper/worldladderscrapper.go:245-254 | any padded int32 reads back |
| WorldLadder.FetchClass | margonemscrapper/worldladderscrapper.go:24-31 | the code is one of `"" t h b w p m`, and it is non-empty exactly when the trimmed text is a key of the map |
| WorldLadder.ClassCodesDistinct | margonemscrapper/worldladderscrapper.go:24-31 | different class names have different codes |
| WorldLadder.FetchNick | margonemscrapper/worldladderscrapper.go:264-266 | the nick is no longer than the text, and neither of its ends is `\n`, `\t` or space |
| WorldLadder.FetchLast | margonemscrapper/worldladderscrapper.go:256-258 | the same holds for the last-online text |
| WorldLadder.GetTotalPagesFromDoc | margonemscrapper/worldladderscrapper.go:176-185 | the count fits int32, and it is 0 whenever the trimmed text does not parse |
| WorldLadder.PaddedInt32 | margonemscrapper/worldladderscrapper.go:177-178 | an int32 printed and padded with `\n`, `\t` or spaces survives the trim-then-parse the extractors share |
| WorldLadder.GetTotalPagesRoundTrip | margonemscrapper/worldladderscrapper.go:176-185 | the page count printed and padded with white space is read back exactly |
| WorldLadder.FullCharacterFields | margonemscrapper/worldladderscrapper.go:212-224 | time stamp and world are copied; a failed id scan zeroes both ids; a failed level or honor is 0; the class is a code; nick and last are the trimmed texts |
| WorldLadder.CharacterLevelFields | margonemscrapper/worldladderscrapper.go:226-232 | a level record carries only the time stamp, the world and the character id, which is 0 when the scan fails |
| WorldLadder.WorldLadderScrapper.FetchFullCharacter | margonemscrapper/worldladderscrapper.go:212-224 | filling the record field by field gives `FullCharacterOf` |
| WorldLadder.WorldLadderScrapper.FetchCharacterLevel | margonemscrapper/worldladderscrapper.go:226-232 | filling the record field by field gives `CharacterLevelOf` |
| WorldLadder.WorldLadderScrapper.constructor | margonemscrapper/worldladderscrapper.go:69-71 | `New()` sets every field to its zero value |
| WorldLadder.WorldLadderScrapper.Init | margonemscrapper/worldladderscrapper.go:73-83 | stores the world and selects the handler for the mode; any other mode keeps the old handler; nothing else changes |
| WorldLadder.WorldLadderScrapper.ScrapFull | margonemscrapper/worldladderscrapper.go:202-205 | appends the row's `FullCharacter` to the log |
| WorldLadder.WorldLadderScrapper.ScrapLevel | margonemscrapper/worldladderscrapper.go:207-210 | appends the row's `CharacterLevel` to the log |
| WorldLadder.WorldLadderScrapper.ProcessRow | margonemscrapper/worldladderscrapper.go:168-172 | a call through `processRow` needs a handler and appends that handler's record |
| WorldLadder.WorldLadderScrapper.EachProcessRow | margonemscrapper/worldladderscrapper.go:170 | appends one record per row, in row order |
| WorldLadder.WorldLadderScrapper.EachScrapLevel | margonemscrapper/worldladderscrapper.go:171 | appends one level record per row, in row order |
| WorldLadder.WorldLadderScrapper.ScrapDocument | margonemscrapper/worldladderscrapper.go:168-174 | for each `tbody`, all handler records and then all level records are logged; the counter drops by exactly one |
| WorldLadder.HandlerCounts | margonemscrapper/worldladderscrapper.go:170-171 | a handler writes one record of its own kind per row |
| WorldLadder.DocumentCounts | margonemscrapper/worldladderscrapper.go:168-174 | `FullScrap` logs one `FullCharacter` and one `CharacterLevel` per row; `LevelScrap` logs two `CharacterLevel`s and no `FullCharacter` |
| WorldLadder.EveryRowRecorded | margonemscrapper/worldladderscrapper.go:169-172 | every row of every `tbody` gets its handler record and a level record |
| WorldLadder.BadLinkStillRecorded | margonemscrapper/worldladderscrapper.go:202-224 | a row whose link does not scan is still written, with both ids 0 |
| WorldLadder.WorldLadderScrapper.StartRun | margonemscrapper/worldladderscrapper.go:100-110 | after `Add(1)`, `Add(totalPages)` and `Done()`, the counter has grown by exactly the page count |
| WorldLadder.WorldLadderScrapper.GetPageBodies | margonemscrapper/worldladderscrapper.go:133-147 | pages `1..totalPages` are sent once each, in increasing order; every attempt asks for the first page not yet fetched; nothing is sent when `totalPages <= 0` |
| WorldLadder.FetchedBodies | margonemscrapper/worldladderscrapper.go:137-142 | there are never more bodies than attempts |
| WorldLadder.ParsedDocs | margonemscrapper/worldladderscrapper.go:150-158 | the documents passed on number all the bodies exactly when every body parses |
| WorldLadder.WorldLadderScrapper.GetPageDocuments | margonemscrapper/worldladderscrapper.go:149-160 | passes on the document of every body that parses, in order |
| WorldLadder.WorldLadderScrapper.ScrapDocuments | margonemscrapper/worldladderscrapper.go:162-166 | the records of each document are logged in turn; the counter drops by one per document |
| WorldLadder.WorldLadderScrapper.Scrap | margonemscrapper/worldladderscrapper.go:97-119 | the counter ends above its start by the number of pages not scraped; it is back at its start exactly when every page was fetched and every body parsed |
| WorldLadder.UnparsedPageLeavesCounter | margonemscrapper/worldladderscrapper.go:151-156 | one unparsable body means fewer documents than pages, so `Wait` never returns |
| WorldLadder.WorldLadderScrapper.GetPageDocumentsReleasing | margonemscrapper/worldladderscrapper.go:149-160 | the corrected stage releases the counter once for each dropped body |
| WorldLadder.WorldLadderScrapper.ScrapReleasing | margonemscrapper/worldladderscrapper.go:97-119 | with the corrected stage, the counter is back at its start exactly when every page was fetched |
| Stats.TrimText | margonemscrapper/statsscrapper.go:278-280 | the result is no longer than the input, and neither of its ends is `\n`, `\t` or space |
| Stats.TrimTextSpec | margonemscrapper/statsscrapper.go:278-280 | the result is a substring with only cutset bytes cut off, and trimming is idempotent |
| Stats.FetchNumber | margonemscrapper/statsscrapper.go:269-276 | the result fits int32, and text with no space is a plain int32 parse |
| Stats.FetchNumberIgnoresSpace | margonemscrapper/statsscrapper.go:270 | a space anywhere makes no difference |
| Stats.FetchNumberSpaceInserted | margonemscrapper/statsscrapper.go:269-276 | space-free text with one space inserted parses as the text itself |
| Stats.FetchNumberRoundTrip | margonemscrapper/statsscrapper.go:269-276 | every int32 written out, with a space inserted anywhere, reads back |
| Stats.FetchNumberExample | margonemscrapper/statsscrapper.go:269-276 | `"12 345"` is 12345 |
| Stats.FetchNumberWithPercent | margonemscrapper/statsscrapper.go:260-267 | the result fits int32 |
| Stats.FetchNumberWithPercentRoundTrip | margonemscrapper/statsscrapper.go:260-267 | an int32 written out and followed by any number of `%` reads back |
| Stats.FetchNumberWithPercentExample | margonemscrapper/statsscrapper.go:260-267 | `"87%"` is 87; `"87 %"` is an error, because spaces are not stripped |
| Stats.FetchNumberWithSuffix | margonemscrapper/statsscrapper.go:243-258 | a result that does not come from the float path fits int32; a float-path result is taken only after a `tys.` match, from the text without its last five bytes |
| Stats.SuffixRoundTrip | margonemscrapper/statsscrapper.go:243-258 | every int32 written out has no `tys.` match and reads back, whatever the float path does |
| Stats.SuffixThousandsRoundTrip | margonemscrapper/statsscrapper.go:243-258 | an int32 followed by `" tys."` is handed whole to the float path; if the float path fails, the int32 fallback reads the same number back |
| Stats.SuffixWithoutMatch | margonemscrapper/statsscrapper.go:243-258 | with no `tys.` match, the result is a plain int32 parse and does not depend on the float path |
| Stats.SuffixWithMatch | margonemscrapper/statsscrapper.go:244-252 | with a match, only the text without its last five bytes is read: the float path's value if it has one, otherwise the int32 parse of that same shortened text |
| Stats.SuffixPlainExample | margonemscrapper/statsscrapper.go:252-257 | `"500"` is 500 for every float path; `"5 000"` is an error |
| Stats.SuffixDropsFiveBytes | margonemscrapper/statsscrapper.go:245 | `"3.2 tys."` hands `"3.2"` to the float path, but `"3.2tys."` hands it `"3."` |
| Stats.SuffixShortMatchPanics | margonemscrapper/statsscrapper.go:244-245 | `"tys."` matches in four bytes and is outside the precondition; `"1tys."` is inside it |
| Stats.GeneralStatsUpToFields | margonemscrapper/statsscrapper.go:160-174 | after `k` values, each field holds its own value through its own parser, or 0 if that value has not been visited yet |
| Stats.GeneralStatsFields | margonemscrapper/statsscrapper.go:156-177 | indices 0, 1 and 4 go through `fetchNumber`; 2 and 3 go through the suffix parser; a missing value leaves 0 |
| Stats.GeneralStatsIgnoresExtra | margonemscrapper/statsscrapper.go:162-173 | values from index 5 on change nothing |
| Stats.StatsScrapper.FetchGeneralStats | margonemscrapper/statsscrapper.go:156-177 | the loop over the values logs exactly one record, `GeneralStatsOf` of the values |
| Stats.WorldName | margonemscrapper/statsscrapper.go:215-216 | the name is one byte shorter than `data-name` |
| Stats.WorldNameSpec | margonemscrapper/statsscrapper.go:216 | byte `i` of the name is byte `i+1` of `data-name`, title-cased when it opens the name or follows a separator |
| Stats.WorldCellsFields | margonemscrapper/statsscrapper.go:219-233 | after `k` cells: cell 1 feeds the suffix parser, cells 3 and 5 the percent parser, cells 7 and 9 the plain parser; every other cell is ignored; name, time stamp and flag are kept |
| Stats.WorldStatsFields | margonemscrapper/statsscrapper.go:212-235 | the world record field by field: a missing cell leaves 0, and the record is public |
| Stats.StatsScrapper.FetchWorldStats | margonemscrapper/statsscrapper.go:212-235 | the cell loop returns `WorldStatsOf` |
| Stats.StatsScrapper.FetchPrivateWorldStats | margonemscrapper/statsscrapper.go:237-241 | the same record, with `Private` set |
| Stats.PrivateOnlyFlag | margonemscrapper/statsscrapper.go:237-241 | the public and private records of a world differ only in the flag |
| Stats.WorldRecords | margonemscrapper/statsscrapper.go:198-210 | one record per world |
| Stats.WorldRecordsSnoc | margonemscrapper/statsscrapper.go:199-202 | one more world appends exactly its record |
| Stats.StatsScrapper.FetchAllPublicWorldStats | margonemscrapper/statsscrapper.go:198-203 | logs the public records, in order |
| Stats.StatsScrapper.FetchAllPrivateWorldStats | margonemscrapper/statsscrapper.go:205-210 | logs the private records, in order |
| Stats.ActivityWorldName | margonemscrapper/statsscrapper.go:183-184 | the world name is not empty |
| Stats.ActivityWorldNameSpec | margonemscrapper/statsscrapper.go:183-184 | the name is followed by a colon in the trimmed header, holds no newline, and no colon follows it on the first line |
| Stats.Nicks | margonemscrapper/statsscrapper.go:185-186 | there is always at least one nick piece |
| Stats.NicksJoin | margonemscrapper/statsscrapper.go:185-186 | the pieces, joined with `", "`, are the trimmed list with its legend removed, and no piece contains `", "` |
| Stats.OnlineListOf | margonemscrapper/statsscrapper.go:183-186 | a section has a non-empty world name and at least one nick |
| Stats.EmptyListOneRecord | margonemscrapper/statsscrapper.go:186-193 | a body of nothing but white space still logs one record, with an empty nick |
| Stats.ListRecords | margonemscrapper/statsscrapper.go:187-193 | one record per nick |
| Stats.ListsRecordsUpToLength | margonemscrapper/statsscrapper.go:181-195 | the first `k` children give at least `k - 1` records |
| Stats.ActivityAtLeastOnePerWorld | margonemscrapper/statsscrapper.go:181-195 | every child after the first gives at least one record |
| Stats.ActivityIgnoresFirst | margonemscrapper/statsscrapper.go:182 | the first child is never read: replacing it changes nothing |
| Stats.ActivityRecordsSnoc | margonemscrapper/statsscrapper.go:181-195 | reading one more child appends exactly its world's records |
| Stats.StatsScrapper.FetchSectionActivity | margonemscrapper/statsscrapper.go:183-193 | the nick loop logs one record per nick, in order |
| Stats.StatsScrapper.FetchChildActivity | margonemscrapper/statsscrapper.go:181-194 | one pass of the children loop: child 0 logs nothing, any other child logs its world's records |
| Stats.StatsScrapper.FetchAllCharacterActivity | margonemscrapper/statsscrapper.go:179-196 | the children loop logs `ActivityRecords` of the overlay |
| Stats.PageDocumentAsWritten | margonemscrapper/statsscrapper.go:144-154 | as written: reading `res.Body` needs a response, and then gives the parsed document |
| Stats.FailedDownloadDereferencesNil | margonemscrapper/statsscrapper.go:145-149 | a failed download, the one case the error branch exists for, is outside what every step as written can be given, while the checked read accepts it and the step logs nothing |
| Stats.PageDocument | margonemscrapper/statsscrapper.go:144-154 | corrected: the result is an error exactly when the download failed, and otherwise it agrees with the as-written read |
| Stats.PageOf | margonemscrapper/statsscrapper.go:144-154 | the page a step goes on with: none after a failed download, and the as-written read whenever a response exists |
| Stats.GeneralStepRecords | margonemscrapper/statsscrapper.go:74-96 | one record when a page arrives, none when the body does not parse (or, for the checked step, the download fails) |
| Stats.WorldStepRecords | margonemscrapper/statsscrapper.go:98-119 | one record per public and private world when a page arrives, none when the body does not parse (or, for the checked step, the download fails) |
| Stats.ActivityStepRecords | margonemscrapper/statsscrapper.go:121-142 | no records when the body does not parse (or, for the checked step, the download fails) |
| Stats.StatsScrapper.constructor | margonemscrapper/statsscrapper.go:17-21 | a zero `StatsScrapper` |
| Stats.StatsScrapper.ScrapGeneralStats | margonemscrapper/statsscrapper.go:74-96 | as written: needs a download with a response (a failed one panics in `getPageBody`); stamps the step, logs the step's records, and releases the counter once on every path |
| Stats.StatsScrapper.ScrapWorldStats | margonemscrapper/statsscrapper.go:98-119 | as written: needs a download with a response; stamps the step, logs the public records then the private ones, and releases the counter once on every path |
| Stats.StatsScrapper.ScrapCharacterActivity | margonemscrapper/statsscrapper.go:121-142 | as written: needs a download with a response; stamps the step, logs the activity records, and releases the counter once on every path |
| Stats.StatsScrapper.Scrap | margonemscrapper/statsscrapper.go:66-72 | as written: when every download has a response, the three steps log in order, the counter returns to its start so `Wait` returns, and the last stamp wins |
| Stats.StatsScrapper.LogWorlds | margonemscrapper/statsscrapper.go:115-116 | the public world records, then the private ones |
| Stats.StatsScrapper.ScrapGeneralStatsChecked | margonemscrapper/statsscrapper.go:74-96 | corrected: any download, a failed one included; stamps the step, logs its records and releases the counter once |
| Stats.StatsScrapper.ScrapWorldStatsChecked | margonemscrapper/statsscrapper.go:98-119 | corrected: any download; stamps the step, logs its records and releases the counter once |
| Stats.StatsScrapper.ScrapCharacterActivityChecked | margonemscrapper/statsscrapper.go:121-142 | corrected: any download; stamps the step, logs its records and releases the counter once |
| Stats.StatsScrapper.ScrapChecked | margonemscrapper/statsscrapper.go:66-72 | corrected: whatever the downloads, failed ones included, the steps log in order and the counter returns to its start, so `Wait` returns |

## Left out

- HTTP (`http.Get`, the URIs), goquery parsing and CSS selection are not modelled. Their results are inputs: fetch outcomes, parsed-or-not bodies, and the selected texts.
- gorm persistence is not modelled. `db.Create` is an append to `log`. The `ON CONFLICT ... DO UPDATE` upsert at worldladderscrapper.go:204 belongs to the database, so the log keeps every write. `CharacterLevel.id` is left to the database.
- Goroutines, channels, `initChannels`, `Start` and the ticker are not modelled. The ladder's three stages run one after the other. Only the counter arithmetic and the order of writes are kept.
- `getPageBodies` is not modelled with its unbounded retries. The Go loop retries a failed page forever. The model consumes a finite sequence of outcomes and reports with `finished` whether the loop ended.
- The float path of `fetchNumberWithSuffix` (`ParseFloat(text, 32) * 1000`, truncated to `int`) is not modelled. It depends on float32 rounding, so it is a function parameter.
- Unicode is not modelled. `strings.Title` is modelled for ASCII letters and ASCII separators. The regexp `.` is modelled as "any byte but a newline", which ignores UTF-8 decoding.
- `Sscanf` is modelled only as far as the one format used needs: ASCII white space before a number, a sign, digits and the 64-bit range. Its error kinds are not distinguished, and neither are the error kinds of `ParseInt`.
- `getTotalPages`, which reads the first ladder page, is not modelled. The parsed first page is an input, and the case of a nil first page is not modelled.
- Logging, `fmt.Printf` and time formatting are not modelled. Clock readings are parameters (`now`).
- `utils/utils.go`, `main.go` and `fixtures/Credentials.go` are not part of this model.
- `Init` of `StatsScrapper` is not modelled. It stores the database handle only.
- The extractors of the ladder are not modelled for a nil `processRow`. Calling a nil handler panics, so the callers require a handler to be set.
- `fetchAllCharacterActivity`: a header without a `^.+:` match panics at `worldName[:len(worldName)-1]`. The model requires a match for every child after the first.
- `fetchWorldStats`: a missing `data-name` (read as `""`) panics at `worldName[1:]`. The model requires at least one byte.
- `fetchNumberWithSuffix`: a `tys.` match in fewer than five bytes panics. The model requires this not to happen.
- A failed statistics download makes `getPageBody` read a nil response and panic. The steps as written (`Stats.StatsScrapper.Scrap` and its three steps) therefore require a response; the checked steps beside them take any download.
- `fetchNumberWithSuffix` does not read `"3.2tys."` as 3200. The code drops the last five bytes, so `"3.2tys."` reaches the float path as `"3."`, and only `"3.2 tys."` hands it `"3.2"`. The model follows the code (`Stats.SuffixDropsFiveBytes`).
- Stats.StatsScrapper.ScrapGeneralStats, Stats.StatsScrapper.ScrapWorldStats and Stats.StatsScrapper.ScrapCharacterActivity do not require a positive counter. In Go a `Done` below zero panics; only `Scrap`, which adds 3 first, calls these steps.

## Findings

| source | as written | input that shows it | evidently intended | confidence | as-written member | corrected member |
|---|---|---|---|---|---|---|
| margonemscrapper/worldladderscrapper.go:149-160 | `getPageDocuments` skips a body that fails to parse with `continue` and never calls `wg.Done()` for its page | a run in which one of the fetched page bodies does not parse | every page releases the counter once, so `wg.Wait()` at line 116 returns | not executed | WorldLadder.UnparsedPageLeavesCounter | WorldLadder.WorldLadderScrapper.ScrapReleasing |
| margonemscrapper/statsscrapper.go:144-150 | `getPageBody` returns `res.Body` even when `http.Get` failed, and `res` is nil then | any statistics download that fails with an error (no response) | return the error without touching `res`, so the caller's `err != nil` branch runs | not executed | Stats.FailedDownloadDereferencesNil | Stats.StatsScrapper.ScrapChecked |
