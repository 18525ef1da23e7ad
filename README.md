# RINEX navigation parsing and GNSS constellation bookkeeping

This project models three classes of an Android GNSS positioning app, and proves properties of the model.

- `RinexNavigationParserGpsGLONASS` reads a RINEX navigation file:
  - the header scan `parseHeaderNav`, which detects version 2.x, 2.12 or 3.x;
  - the dispatch in `init`;
  - the record framing of `parseDataNavV2` and `parseDataNavV3`, with their fixed-column layouts;
  - the record list (`addEph`, `getEph`);
  - the ephemeris selection `findEph`;
  - the lookup branch of `getSatPositionAndVelocities`.
- `GpsConstellation` turns a `GnssMeasurementsEvent` into GPS L1 satellites:
  - `updateMeasurements` sorts them into used (observed) and unused lists;
  - `calculateSatPosition` moves to the unused list every satellite without an ephemeris, or below the 20° elevation mask.
- `GnssConstellation` holds the four constellation flags and forwards epochs to the GPS constellation. Its `calculateSatPosition` merges the GPS and Galileo lists.

Modules:

- `Wrappers` (option.dfy): `Option`.
- `JavaText` (java_text.dfy): the `String` operations with Java's semantics.
- `Ephemeris` (ephemeris.dfy): the `EphGps` record as a value.
- `NavLayout` (nav_layout.dfy): the column tables.
- `NavRecords` (nav_records.dfy): what the column tables store from a well-formed record of each kind.
- `NavSpec` (nav_spec.dfy): the header scan and record framing as functions on a parse state, with their lemmas.
- `EphSelection` (eph_selection.dfy): `findEph` as a function, with its lemmas.
- `RinexNavigation` (rinex_parser.dfy): the parser class, whose methods are proved against `NavSpec` and `EphSelection`.
- `GnssTypes`, `Gps` and `Gnss`: the constellation classes.

The parser methods are written once, over an abstract slot filler `f: Filler`. A filler is any function that applies one record line and keeps the record's system. `Init(c)` passes `SlotsOf(c)`, the concrete column tables with the numeric conversions `c`.

Where the code and the written design differ, the model follows the code:

- Without a fit interval, `findEph` always allows 7200 s. The `switch` falls through every case, so GLONASS does not get 950 s.
- The BeiDou shift of 14 s is applied once per matching record, so it accumulates along the list.
- A record whose date fails to parse is kept, without a reference time. `findEph` then throws a NullPointerException on it. This is the `MissingRefTime` outcome.
- Only empty lines are re-read without using a record slot. A line too short for its columns throws, and the exception ends the parse.
- In version 3, a line of any system other than G, C, E or R has its first character read, then the rest of its line and three more lines are skipped.

## Model

| member | source | states |
|---|---|---|
| Ephemeris.NewEph | app/src/main/java/com/gnss/ppptesttwo/navifromftp/RinexNavigationParserGpsGLONASS.java:324-326 | a fresh record carries the system it was tagged with and no reference time |
| Ephemeris.CountSysAppend | app/src/main/java/com/gnss/ppptesttwo/navifromftp/RinexNavigationParserGpsGLONASS.java:1060-1063 | adding a record raises the per-system count by one exactly for its own system |
| NavLayout.CutPastThrows | app/src/main/java/com/gnss/ppptesttwo/navifromftp/RinexNavigationParserGpsGLONASS.java:581-676 | one column cut past the end of the line makes the whole line throw, whatever its position |
| NavLayout.ShortLineThrows | app/src/main/java/com/gnss/ppptesttwo/navifromftp/RinexNavigationParserGpsGLONASS.java:388-481 | record lines 0 to 6 (GLONASS: 0 to 3) throw when shorter than 60 characters (version 2, and the first line of version 3) or 61 characters (version 3 orbit lines), since their last column starts there |
| NavSpec.ReadChar | app/src/main/java/com/gnss/ppptesttwo/navifromftp/RinexNavigationParserGpsGLONASS.java:530 | `read()` returns the line's first character and leaves the rest of the line; on an empty line it returns the terminator and consumes the line |
| NavSpec.Skip | app/src/main/java/com/gnss/ppptesttwo/navifromftp/RinexNavigationParserGpsGLONASS.java:1197-1205 | k dropped `readLine` calls remove k lines, or all of them at the end of the input |
| NavSpec.Open | app/src/main/java/com/gnss/ppptesttwo/navifromftp/RinexNavigationParserGpsGLONASS.java:547-550 | a version 3 record is appended as a fresh record of the letter's system, and becomes the one being filled |
| NavRecords.V2RecordStores | app/src/main/java/com/gnss/ppptesttwo/navifromftp/RinexNavigationParserGpsGLONASS.java:345-497 | on 8 well-formed version 2 lines the record loop appends exactly one GPS record, keeps the earlier ones and consumes the 8 lines; the record holds the satellite number, the two-digit-year epoch as reference time and `toc`, the 27 orbit and clock fields from their columns (`iode`, `l2Code`, `week`, `l2Flag`, `svAccur` and `iodc` cast to whole numbers), the health, and the fit interval, 0 when line 7 is 22 characters or shorter |
| NavRecords.V3RecordStores | app/src/main/java/com/gnss/ppptesttwo/navifromftp/RinexNavigationParserGpsGLONASS.java:534-1042 | on a well-formed version 3 GPS, BeiDou or Galileo record the loop appends exactly one record of that system and consumes its 8 lines; the fields come from columns 4, 23, 42 and 61, `l2Code` is stored for GPS only, a blank `l2Flag` is 0, and the fit interval is 0 when the trimmed last line is 22 characters or shorter |
| NavRecords.GlonassRecordStores | app/src/main/java/com/gnss/ppptesttwo/navifromftp/RinexNavigationParserGpsGLONASS.java:1046-1193 | on a well-formed version 3 GLONASS record the loop appends exactly one `R` record and consumes its 4 lines; positions, velocities and accelerations are stored times 1000 (km to m), `tk` less 10800 s, `freqNum` cast to a whole number, and a parsed epoch also sets `week` and `toe` |
| NavSpec.Fill | app/src/main/java/com/gnss/ppptesttwo/navifromftp/RinexNavigationParserGpsGLONASS.java:546-700 | a non-empty line opens a record only at version 3 slot 0, counts GLONASS records, changes only the record being filled and adds only records of its system; with no record (null reference) nothing changes |
| NavSpec.FillIs | app/src/main/java/com/gnss/ppptesttwo/navifromftp/RinexNavigationParserGpsGLONASS.java:546-700 | with a record to fill, the line replaces that record by the slot's result and takes the slot's exception status |
| NavSpec.FillSlots | app/src/main/java/com/gnss/ppptesttwo/navifromftp/RinexNavigationParserGpsGLONASS.java:537-701 | the slot loop keeps the state consistent and consumes at least one line while a slot and input remain |
| NavSpec.FillSlotsLine | app/src/main/java/com/gnss/ppptesttwo/navifromftp/RinexNavigationParserGpsGLONASS.java:537-701 | a non-empty line fills the current slot, then the loop goes on to the next slot unless an exception escaped |
| NavSpec.FillSlotsSkip | app/src/main/java/com/gnss/ppptesttwo/navifromftp/RinexNavigationParserGpsGLONASS.java:697-700 | an empty line is dropped and the slot is repeated (`i--`); at the end of the input the NullPointerException is caught and the slot is used up |
| NavSpec.BlankLineUsesNoSlot | app/src/main/java/com/gnss/ppptesttwo/navifromftp/RinexNavigationParserGpsGLONASS.java:497-500 | inserting an empty line before a record's lines changes nothing |
| NavSpec.FillSlotsConsumes | app/src/main/java/com/gnss/ppptesttwo/navifromftp/RinexNavigationParserGpsGLONASS.java:329-505 | with n non-empty lines and no exception, the loop consumes exactly n lines and adds one record at version 3, none at version 2 |
| NavSpec.FillSlotsAppends | app/src/main/java/com/gnss/ppptesttwo/navifromftp/RinexNavigationParserGpsGLONASS.java:537-701 | filling slots never changes a finished record, and adds only records of the slot loop's system |
| NavSpec.FillSlotsV2KeepsLength | app/src/main/java/com/gnss/ppptesttwo/navifromftp/RinexNavigationParserGpsGLONASS.java:329-503 | version 2 slots only fill the record opened before the loop: the list keeps its length |
| NavSpec.V2Record | app/src/main/java/com/gnss/ppptesttwo/navifromftp/RinexNavigationParserGpsGLONASS.java:319-505 | one pass of the version 2 loop keeps the parse state consistent and consumes at least one line |
| NavSpec.V2BodyAppendsOnly | app/src/main/java/com/gnss/ppptesttwo/navifromftp/RinexNavigationParserGpsGLONASS.java:309-517 | version 2 parsing keeps every earlier record and adds only GPS records |
| NavSpec.V3Record | app/src/main/java/com/gnss/ppptesttwo/navifromftp/RinexNavigationParserGpsGLONASS.java:525-1209 | one pass of the version 3 loop keeps the parse state consistent and consumes at least one line, so the loop ends |
| NavSpec.V3RecordIsFillSlots | app/src/main/java/com/gnss/ppptesttwo/navifromftp/RinexNavigationParserGpsGLONASS.java:534-1193 | after a G, C, E or R letter the record is that system's slot loop: 8 lines, or 4 for GLONASS |
| NavSpec.V3RecordFraming | app/src/main/java/com/gnss/ppptesttwo/navifromftp/RinexNavigationParserGpsGLONASS.java:534-1193 | a well-formed G, C, E or R record consumes its 8 (GLONASS: 4) lines and adds exactly one record of that system |
| NavSpec.V3RecordSkipsOtherSystems | app/src/main/java/com/gnss/ppptesttwo/navifromftp/RinexNavigationParserGpsGLONASS.java:1197-1205 | any other letter changes no record and skips the rest of its line and three more lines |
| NavSpec.V3RecordAppends | app/src/main/java/com/gnss/ppptesttwo/navifromftp/RinexNavigationParserGpsGLONASS.java:525-1209 | one version 3 record keeps every finished record and adds only G, C, E or R records |
| NavSpec.V3BodyAppendsOnly | app/src/main/java/com/gnss/ppptesttwo/navifromftp/RinexNavigationParserGpsGLONASS.java:520-1220 | version 3 parsing keeps every earlier record and adds only G, C, E or R records |
| NavSpec.TagOf | app/src/main/java/com/gnss/ppptesttwo/navifromftp/RinexNavigationParserGpsGLONASS.java:174-177 | the trimmed label is recognised as "END OF HEADER" or "RINEX VERSION / TYPE" exactly when it is that text |
| NavSpec.ClassifyVersion | app/src/main/java/com/gnss/ppptesttwo/navifromftp/RinexNavigationParserGpsGLONASS.java:184-196 | the version is 3 iff columns 5-7 read "3.", 212 iff otherwise columns 5-9 read "2.12", and 2 in every other case |
| NavSpec.HeaderScan | app/src/main/java/com/gnss/ppptesttwo/navifromftp/RinexNavigationParserGpsGLONASS.java:163-303 | the header scan never gives back more lines than it was given |
| NavSpec.HeaderLineVersions | app/src/main/java/com/gnss/ppptesttwo/navifromftp/RinexNavigationParserGpsGLONASS.java:174-294 | one header line keeps the version among 0, 2, 3 and 212, and returns a nonzero version only on "END OF HEADER" |
| NavSpec.HeaderVersionNeedsEnd | app/src/main/java/com/gnss/ppptesttwo/navifromftp/RinexNavigationParserGpsGLONASS.java:163-303 | a nonzero version is 2, 3 or 212, is returned only after an "END OF HEADER" line, and the data start right after that line |
| NavSpec.HeaderWithoutEndIsInvalid | app/src/main/java/com/gnss/ppptesttwo/navifromftp/RinexNavigationParserGpsGLONASS.java:167-303 | input without "END OF HEADER" gives version 0 |
| NavSpec.HeaderClassifies | app/src/main/java/com/gnss/ppptesttwo/navifromftp/RinexNavigationParserGpsGLONASS.java:177-196 | a version line followed by "END OF HEADER" gives the classified version when column 20 is 'N', and 0 (returned at once) otherwise |
| EphSelection.MatchesBefore | app/src/main/java/com/gnss/ppptesttwo/navifromftp/RinexNavigationParserGpsGLONASS.java:1245-1247 | the number of matching records among the first n is at most n |
| EphSelection.Nearest | app/src/main/java/com/gnss/ppptesttwo/navifromftp/RinexNavigationParserGpsGLONASS.java:1245-1268 | the kept record is absent iff no record matches, and otherwise it is the first-inserted matching record of least dt |
| EphSelection.ScanStep | app/src/main/java/com/gnss/ppptesttwo/navifromftp/RinexNavigationParserGpsGLONASS.java:1245-1268 | one loop step counts a match and replaces the kept record only on a strictly smaller dt |
| EphSelection.TimedFindEph | app/src/main/java/com/gnss/ppptesttwo/navifromftp/RinexNavigationParserGpsGLONASS.java:1270-1295 | when every match has a reference time, the outcome depends only on the kept record: null, the unhealthy sentinel, or the record gated by dtMax |
| EphSelection.NearestIsUnique | app/src/main/java/com/gnss/ppptesttwo/navifromftp/RinexNavigationParserGpsGLONASS.java:1262-1265 | the nearest record, with ties going to the first inserted, is unique |
| EphSelection.DtMax | app/src/main/java/com/gnss/ppptesttwo/navifromftp/RinexNavigationParserGpsGLONASS.java:1277-1291 | the window is half the fit interval (in seconds) when that is nonzero, and 7200 s otherwise |
| EphSelection.NoMatchIsNull | app/src/main/java/com/gnss/ppptesttwo/navifromftp/RinexNavigationParserGpsGLONASS.java:1270-1271 | with no matching record the result is null |
| EphSelection.FoundIsNearestHealthyInWindow | app/src/main/java/com/gnss/ppptesttwo/navifromftp/RinexNavigationParserGpsGLONASS.java:1245-1297 | a returned record is the nearest matching one, is healthy and lies within its window |
| EphSelection.NearestHealthyInWindowIsFound | app/src/main/java/com/gnss/ppptesttwo/navifromftp/RinexNavigationParserGpsGLONASS.java:1245-1297 | conversely, the nearest matching record is returned when it is healthy and within its window |
| EphSelection.UnhealthyBeforeWindow | app/src/main/java/com/gnss/ppptesttwo/navifromftp/RinexNavigationParserGpsGLONASS.java:1273-1276 | an unhealthy nearest record gives the unhealthy sentinel, whatever its dt |
| EphSelection.WindowBoundary | app/src/main/java/com/gnss/ppptesttwo/navifromftp/RinexNavigationParserGpsGLONASS.java:1292-1297 | dt equal to dtMax is accepted; dt above it gives null |
| EphSelection.DefaultWindowForAllSystems | app/src/main/java/com/gnss/ppptesttwo/navifromftp/RinexNavigationParserGpsGLONASS.java:1282-1290 | without a fit interval the window is 7200 s for every system, GLONASS and QZSS included |
| EphSelection.UntimedMatchThrows | app/src/main/java/com/gnss/ppptesttwo/navifromftp/RinexNavigationParserGpsGLONASS.java:1254 | a matching record without a reference time makes the lookup throw, whatever else is stored |
| EphSelection.BdsShiftAccumulates | app/src/main/java/com/gnss/ppptesttwo/navifromftp/RinexNavigationParserGpsGLONASS.java:1249-1252 | each BeiDou match moves the query time 14 s earlier, so a later match is compared against an earlier time |
| EphSelection.MatchesGrow | app/src/main/java/com/gnss/ppptesttwo/navifromftp/RinexNavigationParserGpsGLONASS.java:1245-1247 | the match count grows monotonically along the list |
| EphSelection.QueryTimeFixedOutsideBds | app/src/main/java/com/gnss/ppptesttwo/navifromftp/RinexNavigationParserGpsGLONASS.java:1249-1252 | for any other system the query time is never shifted |
| EphSelection.PrefixNearest | app/src/main/java/com/gnss/ppptesttwo/navifromftp/RinexNavigationParserGpsGLONASS.java:1245-1268 | the scan of the first n records depends only on those records |
| EphSelection.AppendOtherKeepsFindEph | app/src/main/java/com/gnss/ppptesttwo/navifromftp/RinexNavigationParserGpsGLONASS.java:1304-1307 | adding a record of another satellite does not change `findEph` |
| RinexNavigation.LineReader.ReadLine | app/src/main/java/com/gnss/ppptesttwo/navifromftp/RinexNavigationParserGpsGLONASS.java:331 | `readLine` gives the next line and consumes it, or null at the end of the input |
| RinexNavigation.LineReader.Read | app/src/main/java/com/gnss/ppptesttwo/navifromftp/RinexNavigationParserGpsGLONASS.java:530 | `read` behaves as `NavSpec.ReadChar` on the unread lines |
| RinexNavigation.RinexNavigationParser.constructor | app/src/main/java/com/gnss/ppptesttwo/navifromftp/RinexNavigationParserGpsGLONASS.java:40-51 | a new parser has an empty record list and `ver_f` 0 |
| RinexNavigation.RinexNavigationParser.AddEph | app/src/main/java/com/gnss/ppptesttwo/navifromftp/RinexNavigationParserGpsGLONASS.java:1304-1307 | `addEph` appends at the end and increments `count` |
| RinexNavigation.RinexNavigationParser.GetEph | app/src/main/java/com/gnss/ppptesttwo/navifromftp/RinexNavigationParserGpsGLONASS.java:107-114 | an empty list gives null; otherwise `get(index)` returns record `index`, and throws exactly when the index is out of range |
| RinexNavigation.RinexNavigationParser.ParseHeaderNav | app/src/main/java/com/gnss/ppptesttwo/navifromftp/RinexNavigationParserGpsGLONASS.java:163-303 | the reading loop returns the version, `ver_f`, the exception status and the unread lines of `NavSpec.HeaderScan`, and leaves the records alone |
| RinexNavigation.RinexNavigationParser.OpenRecord | app/src/main/java/com/gnss/ppptesttwo/navifromftp/RinexNavigationParserGpsGLONASS.java:1060-1063 | a fresh record of system `sys` is appended, and `count_glonass` is raised for GLONASS |
| RinexNavigation.RinexNavigationParser.FillLast | app/src/main/java/com/gnss/ppptesttwo/navifromftp/RinexNavigationParserGpsGLONASS.java:555-679 | the setters of one slot replace the last record by the slot's result and nothing else |
| RinexNavigation.RinexNavigationParser.ApplyLine | app/src/main/java/com/gnss/ppptesttwo/navifromftp/RinexNavigationParserGpsGLONASS.java:546-700 | one non-empty line changes the records and counts as `NavSpec.Fill` says |
| RinexNavigation.RinexNavigationParser.FillRecord | app/src/main/java/com/gnss/ppptesttwo/navifromftp/RinexNavigationParserGpsGLONASS.java:537-701 | the slot loop with its `i--` on empty lines ends in the state `NavSpec.FillSlots` gives |
| RinexNavigation.RinexNavigationParser.ParseDataNavV2 | app/src/main/java/com/gnss/ppptesttwo/navifromftp/RinexNavigationParserGpsGLONASS.java:309-517 | the `while (ready())` loop ends with the records, counts and unread input of `NavSpec.V2Body` |
| RinexNavigation.RinexNavigationParser.ParseDataNavV3 | app/src/main/java/com/gnss/ppptesttwo/navifromftp/RinexNavigationParserGpsGLONASS.java:520-1220 | the `while (ready())` loop ends with the records, counts and unread input of `NavSpec.V3Body` |
| RinexNavigation.RinexNavigationParser.Init | app/src/main/java/com/gnss/ppptesttwo/navifromftp/RinexNavigationParserGpsGLONASS.java:86-105 | versions 2 and 2.12 go to the version 2 parser, version 3 to the version 3 parser, version 0 is rejected as invalid, and an exception from the header aborts with the records untouched |
| RinexNavigation.RinexNavigationParser.FindEph | app/src/main/java/com/gnss/ppptesttwo/navifromftp/RinexNavigationParserGpsGLONASS.java:1235-1298 | the scanning loop returns exactly `EphSelection.FindEph` of the record list |
| RinexNavigation.RinexNavigationParser.GetSatPositionAndVelocities | app/src/main/java/com/gnss/ppptesttwo/navifromftp/RinexNavigationParserGpsGLONASS.java:1346-1366 | null with no ephemeris, the unhealthy satellite for an unhealthy one, the propagated position of the selected record otherwise, and an exception when the lookup throws |
| Gps.ApproximateEqual | app/src/main/java/com/gnss/ppptesttwo/constellations/GpsConstellation.java:102-104 | true iff `a` lies strictly within `eps` of `b` |
| Gps.WeekStartNanos | app/src/main/java/com/gnss/ppptesttwo/constellations/GpsConstellation.java:257-259 | the result is a whole number of weeks, and the latest week start not after `-FullBiasNanos` |
| Gps.GpsWeek | app/src/main/java/com/gnss/ppptesttwo/constellations/GpsConstellation.java:393 | the week number times the week length gives back the week start |
| Gps.UniqueSatId | app/src/main/java/com/gnss/ppptesttwo/constellations/GpsConstellation.java:298 | the id starts with 'G' and ends with "_L1" |
| Gps.GpsL1Count | app/src/main/java/com/gnss/ppptesttwo/constellations/GpsConstellation.java:238-245 | at most the number of measurements are GPS L1 |
| Gps.Intake | app/src/main/java/com/gnss/ppptesttwo/constellations/GpsConstellation.java:238-332 | the measurement loop builds the observed and unused lists, `tRxGPS` and the week start defined by `ObservedOf`, `UnusedOf`, `TRxAfter` and `WeekStartNanos` |
| Gps.IntakeStep | app/src/main/java/com/gnss/ppptesttwo/constellations/GpsConstellation.java:240-331 | a GPS L1 measurement extends exactly one list by its parameters and sets the receive time; any other measurement changes nothing |
| Gps.ObservedAreRanged | app/src/main/java/com/gnss/ppptesttwo/constellations/GpsConstellation.java:292-310 | every observed satellite carries a pseudorange |
| Gps.IntakePartition | app/src/main/java/com/gnss/ppptesttwo/constellations/GpsConstellation.java:292-331 | every GPS L1 measurement lands in exactly one list, so the visible size is the number of GPS L1 measurements |
| Gps.IntakeLists | app/src/main/java/com/gnss/ppptesttwo/constellations/GpsConstellation.java:292-331 | observed satellites are GPS L1 measurements that are tracked, with a pseudorange below 1e9 m; unused ones have no pseudorange |
| Gps.IntakeRecords | app/src/main/java/com/gnss/ppptesttwo/constellations/GpsConstellation.java:292-331 | each GPS L1 measurement is recorded, observed with its pseudorange when usable and unused otherwise |
| Gps.IntakeIgnoresOthers | app/src/main/java/com/gnss/ppptesttwo/constellations/GpsConstellation.java:240-245 | a measurement of another constellation or band changes neither list nor the receive time |
| Gps.AssessAll | app/src/main/java/com/gnss/ppptesttwo/constellations/GpsConstellation.java:387-447 | one assessment per observed satellite, in order |
| Gps.AssessObserved | app/src/main/java/com/gnss/ppptesttwo/constellations/GpsConstellation.java:387-447 | the satellite loop yields, in order, each satellite as updated and whether it is excluded, as `AssessAll` says |
| Gps.RemoveExcluded | app/src/main/java/com/gnss/ppptesttwo/constellations/GpsConstellation.java:451 | `removeAll(excluded)` leaves the satellites not excluded, in order |
| Gps.AssessExcludes | app/src/main/java/com/gnss/ppptesttwo/constellations/GpsConstellation.java:402-427 | a satellite is excluded iff its ephemeris lookup gives null or its elevation is below the mask; otherwise it gets a position and an elevation |
| Gps.MaskPartition | app/src/main/java/com/gnss/ppptesttwo/constellations/GpsConstellation.java:450-452 | the pass only moves satellites: every kept one was not excluded, every dropped one was, and the counts add up |
| Gps.KeptAreAboveMask | app/src/main/java/com/gnss/ppptesttwo/constellations/GpsConstellation.java:410-427 | after the pass every observed satellite has a position and an elevation at or above 20° |
| Gps.KeptAreRanged | app/src/main/java/com/gnss/ppptesttwo/constellations/GpsConstellation.java:387-452 | the satellites still observed keep their pseudoranges, so the next pass can use them |
| Gps.GpsConstellation.constructor | app/src/main/java/com/gnss/ppptesttwo/constellations/GpsConstellation.java:87-91 | empty lists, no bias latched, no receiver position and no time yet |
| Gps.GpsConstellation.UpdateMeasurements | app/src/main/java/com/gnss/ppptesttwo/constellations/GpsConstellation.java:214-334 | the lists are rebuilt from the event's measurements; the full bias is latched on the first event only; the week start moves only when a GPS L1 measurement arrives; the counter equals the unused list's size |
| Gps.GpsConstellation.CalculateSatPosition | app/src/main/java/com/gnss/ppptesttwo/constellations/GpsConstellation.java:373-454 | the position is stored, satellites that are not excluded stay observed in order, excluded ones are appended to the unused list, and the counter follows |
| Gps.GpsConstellation.GetRxPos | app/src/main/java/com/gnss/ppptesttwo/constellations/GpsConstellation.java:457-460 | the stored receiver position |
| Gps.GpsConstellation.SetRxPos | app/src/main/java/com/gnss/ppptesttwo/constellations/GpsConstellation.java:469-473 | only the receiver position changes |
| Gps.GpsConstellation.GetTime | app/src/main/java/com/gnss/ppptesttwo/constellations/GpsConstellation.java:358-360 | the time of the last intake |
| Gps.GpsConstellation.GetSatellite | app/src/main/java/com/gnss/ppptesttwo/constellations/GpsConstellation.java:476-480 | observed satellite `index`, or an exception exactly when the index is out of range |
| Gps.GpsConstellation.GetUnusedSatellites | app/src/main/java/com/gnss/ppptesttwo/constellations/GpsConstellation.java:490-492 | the unused list |
| Gps.GpsConstellation.GetUsedConstellationSize | app/src/main/java/com/gnss/ppptesttwo/constellations/GpsConstellation.java:502-506 | the number of observed satellites |
| Gps.GpsConstellation.GetVisibleConstellationSize | app/src/main/java/com/gnss/ppptesttwo/constellations/GpsConstellation.java:495-499 | observed plus unused satellites, because the counter always equals the unused list's size |
| Gnss.AppendEach | app/src/main/java/com/gnss/ppptesttwo/constellations/GnssConstellation.java:198-204 | adding each element in index order gives the list followed by the elements |
| Gnss.GnssConstellation.constructor | app/src/main/java/com/gnss/ppptesttwo/constellations/GnssConstellation.java:58-64 | the four flags are stored, with fresh GPS and Galileo constellations and empty lists |
| Gnss.GnssConstellation.SetIsGps | app/src/main/java/com/gnss/ppptesttwo/constellations/GnssConstellation.java:83-85 | only the GPS flag changes |
| Gnss.GnssConstellation.SetIsGalileo | app/src/main/java/com/gnss/ppptesttwo/constellations/GnssConstellation.java:87-89 | only the Galileo flag changes |
| Gnss.GnssConstellation.SetIsBeidou | app/src/main/java/com/gnss/ppptesttwo/constellations/GnssConstellation.java:91-93 | only the BeiDou flag changes |
| Gnss.GnssConstellation.SetIsGlonass | app/src/main/java/com/gnss/ppptesttwo/constellations/GnssConstellation.java:95-97 | only the GLONASS flag changes |
| Gnss.GnssConstellation.GetRxPos | app/src/main/java/com/gnss/ppptesttwo/constellations/GnssConstellation.java:100-105 | the GPS constellation's receiver position |
| Gnss.GnssConstellation.SetRxPos | app/src/main/java/com/gnss/ppptesttwo/constellations/GnssConstellation.java:107-113 | the same position is written to both constellations, and nothing else changes |
| Gnss.GnssConstellation.GetSatellite | app/src/main/java/com/gnss/ppptesttwo/constellations/GnssConstellation.java:116-120 | merged satellite `index`, or an exception exactly when the index is out of range |
| Gnss.GnssConstellation.GetSatellites | app/src/main/java/com/gnss/ppptesttwo/constellations/GnssConstellation.java:122-127 | the merged observed list |
| Gnss.GnssConstellation.GetUnusedSatellites | app/src/main/java/com/gnss/ppptesttwo/constellations/GnssConstellation.java:129-132 | the merged unused list |
| Gnss.GnssConstellation.GetVisibleConstellationSize | app/src/main/java/com/gnss/ppptesttwo/constellations/GnssConstellation.java:134-139 | merged observed plus merged unused |
| Gnss.GnssConstellation.GetUsedConstellationSize | app/src/main/java/com/gnss/ppptesttwo/constellations/GnssConstellation.java:141-146 | the merged observed count |
| Gnss.GnssConstellation.GetSatelliteSignalStrength | app/src/main/java/com/gnss/ppptesttwo/constellations/GnssConstellation.java:148-153 | the signal strength of merged satellite `index`, or an exception out of range |
| Gnss.GnssConstellation.GetTime | app/src/main/java/com/gnss/ppptesttwo/constellations/GnssConstellation.java:165-170 | the GPS constellation's time of the last intake |
| Gnss.GnssConstellation.UpdateMeasurements | app/src/main/java/com/gnss/ppptesttwo/constellations/GnssConstellation.java:177-183 | the event goes to the GPS constellation only, whatever the flags: its lists are rebuilt from the measurements, the intake time is set, the bias is latched on the first event only, the receive time and the week start follow the GPS L1 measurements, and the receiver position stays |
| Gnss.GnssConstellation.CalculateSatPosition | app/src/main/java/com/gnss/ppptesttwo/constellations/GnssConstellation.java:185-210 | GPS is assessed only when its flag is set (kept satellites stay observed, excluded ones join the unused list, the position is stored), Galileo only when its flag is set; the flags and GPS's week start, receive time, intake time and latched bias stay; afterwards the observed list is the GPS list followed by the Galileo list, and the same holds for the unused list |

## Left out

- File and stream handling is left out: `open`, `close`, the constructors over `File`/`InputStream`, the cache write-through, and FTP download. The input is a sequence of lines without terminators, with LF line endings only.
- Numeric conversions are opaque functions of a `Codec`: `Double.parseDouble`, `Float.parseFloat`, `Integer.parseInt`, casts to `int`/`long`, and `Time` parsing and week arithmetic. The model fixes which column each conversion reads, and what happens when it throws. Numeric fields store the normalised column text with its scale and shift, not a double.
- The ionospheric coefficients of "IONOSPHERIC CORR" are checked (an unparsable one throws) but not stored. `IonoGps`, `IonoGalileo` and `IonoBD` are not part of this model.
- Orbit propagation (`computeSatPositionAndVelocities`) is a parameter of `GetSatPositionAndVelocities`. Topocentric geometry and the corrections are parameters (`Environment`) of the positioning pass. The corrections include troposphere, ionosphere and Shapiro.
- `RinexNavigationGps` is not part of this model; its lookup is the `Environment.lookup` parameter. The Galileo constellation class is not part of this model either: its positioning step is the `galileoPass` parameter, which decides its new lists and stored position, and its `updateMeasurements` is never called from the aggregator.
- `updateMeasurements1`, `isTimestampInEpocsRange`, `getConstellationId`, `getName`, `addCorrections` and `registerClass` are left out: they are outside the modelled behaviour or only return constants.
- The weighted least squares solver and the activity code are left out.
- `synchronized` blocks are left out. Concurrency is not modelled, and each method runs atomically.
- Doubles are modelled as reals, with no rounding.
- Gps.GpsConstellation.UpdateMeasurements: `weekNumberNanos` is held as an exact integer, where the source computes a double with `Math.floor`. 64-bit overflow of the nanosecond counters is not modelled.
- The Android SDK level is a constructor flag (`sdkAtLeastO`). `System.currentTimeMillis()` is a parameter (`nowMillis`).
- Records and `SatelliteParameters` are values, not shared references. Aliasing is not modelled: the records the parser's local reference updates are the last element of the list, and `removeAll` of excluded satellites is modelled by position rather than by object identity.
- RinexNavigation.RinexNavigationParser.ParseDataNavV2 and ParseDataNavV3 take the slot filler `f` as a parameter, and `Init` passes `SlotsOf(c)`. What those column tables store is stated in `NavRecords` for well-formed records only. For a line that is too short, `NavLayout` states that it throws. Other malformed columns (an unparsable number, say) are modelled, but no lemma names the outcome field by field.
- The `(int)` and `(long)` casts of a parsed double share the one opaque `truncDouble` conversion. Its 32-bit or 64-bit range is not modelled.
- Log and console output are left out.
