# FireShield.AI decision rules in Dafny

FireShield.AI is a single-page form: the user enters a U.S. ZIP code and
three yes/no answers (pets, young children, elderly or sick dependants). The
script checks the ZIP code, resolves it to a place, rates wildfire risk from
the nearest fire record, looks up emergency shelters (live feature service
first, a bundled table as fallback), keeps those within 25 km, and prints a
personalised evacuation checklist.

This project models the decision rules under that glue as pure Dafny
functions with contracts, plus lemmas relating them:

- `Text` — Python's `str.strip()` (with Python's exact whitespace set),
  `str.upper()` and `s.split(sep)[-1]`.
- `ZipCode` — the form check: strip, then digits only and exactly five.
- `FireRisk` — the fire record, the four-row first-match risk table, the
  choice of the nearest record (first minimum, as Python's `min` picks it),
  and the placeholder fire source.
- `Checklist` — the five base items and the three optional ones.
- `Geocoding` — the ZIP lookup reply collapsed to an optional location, its
  "Place, ST" label, and reading the state back from that label.
- `Shelters` — the live reply turned into a table, the case-insensitive
  state filter of the fallback table, the choice between them, the 25 km
  filter and the two shelter views.
- `Seqs` — the order-preserving filter all row filters are built on, and the
  subsequence relation.
- `App` — one submission end to end, with every outside source a parameter.

Outside sources are parameters: the ZIP lookup reply (`Option<Place>`), the
live shelter reply (`LiveReply`), the fallback table (`Option<Frame>`, None
for a missing or unreadable file) and the great-circle distance function.

## Model

| member | source | states |
|---|---|---|
| Text.AsciiWhitespace | app.py:270 | Python's whitespace test, on ASCII: exactly tab, line feed, vertical tab, form feed, carriage return, the four separators 0x1C-0x1F and space count as whitespace (the Unicode ones are in the predicate's body) |
| Text.Strip | app.py:270 | the result has no whitespace at either end and is a slice of the input with only whitespace outside it |
| Text.StripTrimmed | app.py:270 | input without surrounding whitespace is left unchanged |
| Text.StripIdempotent | app.py:270 | stripping twice equals stripping once |
| Text.StripSkipsLeadingSpace | app.py:270 | a leading whitespace character does not change the stripped value |
| Text.LastField | app.py:290 | the result is the longest comma-free suffix: it contains no separator and is either the whole input or preceded by a separator |
| Text.LastFieldAfterSeparator | app.py:290 | the last field of `p + sep + t` is `t` when `t` has no separator |
| Text.Upper | app.py:201 | same length, no lower-case ASCII letter left, every other character unchanged, each lower-case letter moved to its capital |
| Text.UpperIdempotent | app.py:201 | upper-casing twice equals upper-casing once |
| ZipCode.IsZip | app.py:282 | the negated test accepts a string iff it has length 5 and every character is a digit (the empty-string case of `isdigit` is subsumed) |
| ZipCode.Accepts | app.py:270-282 | the form accepts an input iff its stripped value is one of 00000 through 99999 written with five digits |
| ZipCode.AcceptedZipsAreFiveDigitNumbers | app.py:282 | the accepted strings are exactly the zero-padded writings of 0 through 99999 |
| ZipCode.PadOfValue | app.py:282 | a digit string read as a number and written back with its own width is the same string |
| ZipCode.AcceptsIgnoresLeadingSpace | app.py:270 | whitespace in front of the input never changes whether it is accepted |
| ZipCode.BeverlyHillsZipAccepted | app.py:282 | "90210" passes the form check |
| FireRisk.ParseConfidence | app.py:238-240 | the enum tests agree with the source's string tests `== 'high'` and `in ['high', 'nominal']` |
| FireRisk.Classify | app.py:238-245 | the level's table row holds and no more severe level's row holds |
| FireRisk.ClassifyIsFirstMatch | app.py:238-245 | each level is returned iff all earlier rows fail and its own row holds; exactly one level results |
| FireRisk.DistantFireIsLow | app.py:242-245 | a fire 25 km or more away is Low whatever its brightness and confidence |
| FireRisk.ClassifyMonotone | app.py:238-245 | a fire at least as close, as bright and as confidently detected never gets a lower level |
| FireRisk.FirstNearestIsUnique | app.py:232 | at most one index is the first record of smallest distance |
| FireRisk.NearestFrom | app.py:232 | the left-to-right scan returns the first index of smallest distance |
| FireRisk.Nearest | app.py:224-232 | None iff there are no records; otherwise a member of the list whose distance is at most every other record's and which comes first among the records of that distance |
| FireRisk.RiskOf | app.py:224-245 | an empty list gives Low; otherwise the level is the classification of the first nearest record |
| FireRisk.AllDistantIsLow | app.py:224-245 | when every record is 25 km or more away the level is Low |
| FireRisk.CheckFireRisk | app.py:159-166 | whatever the location and radius, the list is non-empty and every record lies 25 km or more away |
| FireRisk.PlaceholderRiskIsLow | app.py:159-166 | the placeholder record (50 km, high, 400.5) rates every location Low |
| Checklist.ItemsDistinct | app.py:373-385 | the three optional items differ from each other and from every base item |
| Checklist.AddedShape | app.py:380-385 | the optional part holds the pet, child and care items each iff its answer is yes, one per yes answer, none of them a base item |
| Checklist.AddedInOrder | app.py:380-385 | the optional items appear in the fixed order pet, child, care |
| Checklist.Build | app.py:373-385 | starts with the five base items in order; the pet, child and care items are present iff their answers are yes; length is 5 plus the number of yes answers; the list is a subsequence of all eight items in their fixed order |
| Geocoding.Label | app.py:143 | when the abbreviation has no comma, the last comma-separated field of the label is a space followed by the abbreviation |
| Geocoding.Geocode | app.py:134-146 | a location exists iff the reply could be read, with the reply's coordinates and the "Place, ST" label of its place name and abbreviation |
| Geocoding.StateAbbr | app.py:290 | the state is the last comma-separated field of the label with its surrounding whitespace removed: a slice of that field with only whitespace outside it, no comma inside and no whitespace at its ends |
| Geocoding.StateAbbrOfLabel | app.py:143 | for a label `place + ", " + st` with `st` comma-free and trimmed, the state read back is `st` |
| Geocoding.GeocodeKeepsState | app.py:139-143 | the state read from a resolved location's label is the abbreviation of the reply |
| Seqs.Keep | app.py:304 | the result is a subsequence of the input holding every copy of the wanted elements and nothing else |
| Seqs.KeepIsTheOnlyFilter | app.py:304 | any subsequence with exactly those multiplicities is the filter's result |
| Shelters.ToShelter | app.py:117-125 | the row's latitude is the point's y and its longitude the point's x; its name, address, city, ZIP and state are the NAME, ADDRESS, CITY, ZIP and STATE attributes, each the empty string when the attribute is missing |
| Shelters.FeatureRows | app.py:112-125 | exactly one row per feature with a point, in reply order, and none for the others; no rows iff no feature has a point |
| Shelters.LiveFrame | app.py:97-127 | no table at all iff the request raised; an empty table for a body that is not JSON or has no feature list; otherwise the located rows, with columns only when there is a row |
| Shelters.LoadLive | app.py:117-125 | a non-empty live table lacks the NAME and LATITUDE columns the rest of the script reads |
| Shelters.LoadLiveFixed | app.py:117-125 | a non-empty live table carries the display and coordinate columns |
| Shelters.ByState | app.py:201 | keeps exactly the rows whose upper-cased state equals the upper-cased abbreviation, every copy, in table order |
| Shelters.ByStateIgnoresCase | app.py:201 | abbreviations equal up to case select the same rows |
| Shelters.ByStateOfUpper | app.py:201 | selecting by the upper-cased abbreviation selects the same rows |
| Shelters.LoadFallback | app.py:190-214 | a missing file or a table without a STATE column (after upper-casing the column names) gives no rows; otherwise the rows of the state |
| Shelters.ChooseSource | app.py:293-297 | the live table when it has rows, the fallback table otherwise |
| Shelters.Nearby | app.py:304 | keeps exactly the shelters at 25 km or less, every copy, in table order |
| Shelters.NearbyIdempotent | app.py:304 | filtering to nearby shelters twice is filtering once |
| Shelters.PlaceAll | app.py:301-303 | every row gets its distance from the user, in order |
| Shelters.ShowShelters | app.py:295-358 | no data iff the table is empty; a missing display column stops the block; the nearby table is the non-empty 25 km filter; the directory is shown when no row is within 25 km or the coordinate columns are missing |
| Shelters.LiveRowsStopAtMissingColumn | app.py:117-125 | as written, any live reply with a located feature stops the shelter block at a missing column |
| Shelters.FixedLiveRowsAreShown | app.py:117-125 | with upper-case column names, such a reply is always shown as the nearby table or the directory |
| App.Located | app.py:288 | the location is usable iff the lookup gave one and neither coordinate is zero (Python's truth test) |
| App.Assess | app.py:223-245 | the reported record is the first nearest record of the fire list fetched with the default 25 km radius, the level is its classification, and that level is Low |
| App.ShelterViewAt | app.py:290-304 | the view of the live table when it has rows, else of the fallback rows for the state read from the location's label, with distances measured from the location |
| App.Handle | app.py:281-391 | rejected iff the form check fails; location unknown iff the lookup fails or gives a zero coordinate; stopped by the live request iff it raised; once located with a live table, stopped at the missing display column iff the shelter view of that table (or of the fallback) is the missing-column view, and otherwise a report showing exactly that view; a report has the looked-up location, Low risk, the placeholder fire as nearest record, the checklist of the three answers and the state read from its label |
| App.Submit | app.py:281-391 | the same outcomes, including the stop at the missing column and the view a report shows, for the live table of the loader as written |
| App.SubmitFixed | app.py:281-391 | the same outcomes, including the stop at the missing column, the view a report shows and every report field, for the live table of the loader with upper-case column names |
| App.LiveFeatureStops | app.py:293-355 | as written, a live reply with a located feature stops the submission at the missing NAME column, before the risk and the checklist are shown |
| App.FixedLiveFeatureReports | app.py:293-355 | with upper-case live columns the same submission reaches the report |
| App.RejectionIgnoresSources | app.py:282-283 | a rejected ZIP code gives the same outcome whatever the outside sources reply |
| App.ReportUsesReplyState | app.py:288-297 | a located submission either stops or reports, and a report carries the state abbreviation the ZIP lookup reported |
| App.PetOwnerChecklist | app.py:357-385 | with no shelter data from either source, a pet owner with no children or dependants gets a report whose checklist has the pet item and neither of the other two |

## Findings

| source | as written | input that shows it | evidently intended | confidence | as-written member | corrected member |
|---|---|---|---|---|---|---|
| app.py:117-125 | the live loader names its columns Name, Address, City, ZIP, lat, lon, State, while lines 302, 352 and 355 read LATITUDE, LONGITUDE, NAME, ADDRESS, CITY; the failed read at 302 is swallowed and the one at 355 escapes | any live reply with one feature that has a geometry | the live table uses the upper-case column names of the fallback table | not executed; high | Shelters.LiveRowsStopAtMissingColumn | Shelters.FixedLiveRowsAreShown |

The as-written loader is `Shelters.LoadLive`, used by `App.Submit`; there
`App.LiveFeatureStops` shows the whole submission stopping. The corrected
loader is `Shelters.LoadLiveFixed`, used by `App.SubmitFixed`, where
`App.FixedLiveFeatureReports` shows the same submission reaching the report.

## Left out

- Streamlit rendering, the CSS string, the warning box, spinner, captions,
  the pydeck map and the wording and emoji of messages (app.py:9-80,
  261-391): rendering only. A stopped submission keeps nothing of what was
  drawn before the error. The risk message is modelled as a `RiskLevel`
  and the nearest record.
- The HTTP requests of the live shelter query and the ZIP lookup (app.py:88-97,
  134-138): the replies are parameters. A live request that raises is the
  `RequestFailed` reply and stops the submission; a failing ZIP lookup is
  caught and is the `None` reply. The live reply's body is modelled only
  in the shapes the loader handles; these malformed bodies raise an
  uncaught error that stops the submission, and are not modelled:
  - a JSON body that is `null` (TypeError at app.py:107);
  - a `features` value that is not a list of objects (TypeError at app.py:113-114);
  - a feature without an `attributes` key (KeyError at app.py:114);
  - an `attributes` value that is `null` (AttributeError at app.py:118);
  - a truthy geometry without `x` or `y` (KeyError at app.py:122-123).
- CSV reading (app.py:192): the table is a parameter; missing values in the
  STATE column and column names that collide once upper-cased are not modelled.
- `haversine` (app.py:149-155): floating-point trigonometry; the distance is a
  function parameter, and the failure branch at app.py:305-306 (malformed
  coordinates) cannot arise for real-valued coordinates.
- Distances are not rounded: the code rounds to one decimal only in the
  commented-out loader (app.py:182).
- The `st.cache_data(ttl=3600)` memoisation (app.py:158): framework caching
  with wall-clock expiry; the fire source is a constant anyway.
- The commented-out real fire loader (app.py:168-187): dead code.
- The `sort_values` orderings of the two shelter views (app.py:352, 355): the
  model keeps table order, as only the display order differs.
- The fallback table is loaded only when the live table is empty; the model
  evaluates it unconditionally, which has no effect on the outcome since
  loading is pure here.
- ZipCode.IsZip, ZipCode.Accepts: ASCII digits only; Python's `isdigit`
  also accepts other Unicode digits (superscripts, other scripts), so the
  form passes five-character strings of those that the model rejects.
- Text.Upper: ASCII letters only; Python's `upper` maps every cased Unicode
  letter and may change the length (for example `ß` to `SS`).
- Floats are modelled as unbounded reals: no NaN, infinities or rounding.
