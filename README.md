# Buriram referral-round bot: a Dafny model of its lookup engine

`app.py` is a LINE chat bot, served with Flask. Staff send it a message that names
one or more districts (hospitals) of Buriram province. The bot replies, for each
district, whether a return round ("รับกลับ") is available and with which hospital.
The answer comes from a snapshot of a Google Sheet kept in two globals,
`latest_sheet_data` and `sheet_ready`. The snapshot is pushed to `/update` by an
Apps Script, or pulled by `fetch_sheet_data`: once at startup, and again by
every message that names a district while no snapshot is ready. A row counts as available when
its district name cell, partner cell or note cell has a blue or yellow
background.

The model has six modules, one per concern:

- `Text`: Python's `strip()`, `lower()`, `isdigit()` with `int()`, and
  substring `in`.
- `Values`: decoded JSON as the code sees it (a `Value` datatype), together
  with `dict.get`, truthiness and `str()`.
- `Colour`: `normalize_color_to_rgb` and `get_color_type`.
- `RowOrder`: the stable sort of the snapshot rows by numeric key.
- `Scan`: `has_round_for_district`, modelled as a recursive specification
  (`ScanRows`/`HasRound`) and as the imperative row loop and column loop
  proved equal to it.
- `Bot`: district extraction, the reply loop of `handle_message`, and the
  snapshot state. The state is a `SheetStore` class whose fields are the two
  globals, and whose methods are proved against the pure transition functions
  `AfterUpdate`, `AfterFetch` and `Handle`.

How the code's failure paths are modelled:

- **Exceptions.** An exception becomes an explicit outcome.
  - `.get` on a non-dictionary cell raises, giving `ScanResult.Raised`.
  - A raise during the reply loop ends the handler with no reply, giving
    `HandlerOutcome.Failed`.
  - A `TypeError` in `/update` gives status 500.
- **What app.py does not do:**
  - It reads colour records only in the fractional `{red, green, blue}` form.
    `WholeNumberScaleNotRecognised` shows that a 0..255 record is scaled a
    second time.
  - It matches names one way only: the query must occur in the cell.
  - It has no separate answer for a name that is found without a colour:
    that is `None`, like every other miss.
  - It does not locate columns by header: they are the fixed constants 10,
    14 and 15.

## Model

| member | source | states |
|---|---|---|
| Text.Strip | app.py:122 | the result is a slice of the input with only whitespace (Python's `isspace` set) cut from either end, and has no whitespace at its ends |
| Text.StripIdempotent | app.py:137 | stripping an already stripped name changes nothing |
| Text.Lower | app.py:176-177 | no capital ASCII letter is left, each capital becomes its small letter, and every other character stays in place |
| Text.LowerIdempotent | app.py:176-177 | lowering an already lowered text changes nothing |
| Text.DigitsBounds | app.py:126 | an n-digit key reads as a number below 10^n, and at least 10^(n-1) without a leading zero |
| Text.ContainsIffOccurs | app.py:139 | the substring test holds exactly when the pattern occurs at some position of the text |
| Values.Get | app.py:148 | a dictionary lookup finds a value exactly when some entry has the key, and the value found is stored under that key |
| Colour.Trunc | app.py:50-52 | `int()` of a float truncates toward zero: within one of the input, no larger in magnitude |
| Colour.NormalizeColorToRgb | app.py:42-56 | a non-dictionary gives None; a dictionary gives a triple exactly when all three components can be read, and the triple is each component times 255 truncated, a missing one counting as 0 |
| Colour.ScaledFractionInRange | app.py:50-52 | a fraction in [0, 1] scales into 0..255, with 255 exactly at 1.0 and 0 at 0 |
| Colour.NormalizeFractionsInRange | app.py:42-56 | a record whose components are fractions always normalises, to a triple in 0..255 |
| Colour.Classify | app.py:66-79 | blue exactly when b ≥ 200, g ≥ 200 and r ≤ 100; yellow exactly under the mirrored thresholds; None exactly when neither holds, which also makes the two exclusive |
| Colour.GetColorType | app.py:59-64 | no normalised colour (including a non-dictionary) gives no category; otherwise blue or yellow exactly as the thresholds say |
| Colour.ClassifierBoundaries | app.py:71-79 | cyan is blue and yellow is yellow, magenta and green are neither, and r = 100 is blue while r = 101 is not |
| Colour.FractionalYellow | app.py:42-79 | the record {1.0, 1.0, 0.0} normalises to (255, 255, 0) and is yellow |
| Colour.WholeNumberScaleNotRecognised | app.py:50-52 | a record written on the 0..255 scale is multiplied by 255 again |
| Colour.MissingComponentIsZero | app.py:50-52 | a record missing `blue` reads it as 0 and can still be yellow |
| Colour.UnreadableComponent | app.py:49-55 | a `red`, `green` or `blue` that is a string or null makes the whole colour unreadable, so it has no category |
| RowOrder.LongerNumberSortsLater | app.py:126 | keys sort by number, not by text: a digit key with more digits and no leading zero comes after a shorter one |
| RowOrder.MultiDigitOrderExample | app.py:124-127 | row "9" is visited before row "10", the reverse of text order |
| RowOrder.Insert | app.py:124-127 | inserting into a sorted sequence keeps it sorted and adds exactly the one entry |
| RowOrder.SortRows | app.py:124-127 | the rows come out sorted by key and are a permutation of the snapshot's entries |
| RowOrder.WithKeyInsert | app.py:124-127 | insertion adds the new entry in front of the entries that share its key |
| RowOrder.SortRowsStable | app.py:124-127 | for every key value, the rows with that key keep their snapshot order |
| RowOrder.NonDigitRowsLast | app.py:124-127 | non-digit rows come after every row whose numeric key is below 999999, and keep their order among themselves |
| RowOrder.NumericOrderExample | app.py:124-127 | keys "3", "1", "2" are visited as "1", "2", "3" |
| Scan.RowStep | app.py:129-134 | a header, non-list or short row never ends the scan, and a row that ends it never yields None |
| Scan.UsableRowStep | app.py:136-156 | a row that is looked at either passes control on or ends the scan with a hit or an exception |
| Scan.RowStepCases | app.py:130-156 | a row raises exactly when its name cell is not a dictionary, or when it matches and is coloured but its partner or note cell is not a dictionary; it yields a hit exactly when it is usable, matches, is coloured and all three cells are dictionaries, and the hit is the three trimmed cell values |
| Scan.TriggerCellColoured | app.py:143-151 | the column loop finds a colour exactly when one of columns 10, 14, 15 is a dictionary with a blue or yellow background |
| Scan.CheckRow | app.py:129-156 | the row loop body computes exactly the row's step |
| Scan.HasRoundForDistrict | app.py:118-158 | the imperative scan returns exactly the result of the specification scan over the sorted rows with the lowered, stripped query |
| Scan.FirstStopWins | app.py:129-158 | the result is that of the first row that ends the scan, whatever later rows hold |
| Scan.NoStopNoRound | app.py:158 | when no row ends the scan, the result is None |
| Scan.ResultHasFirstStop | app.py:129-158 | any result other than None comes from a row that ends the scan after no earlier row did |
| Scan.RoundComesFromSnapshot | app.py:118-158 | a hit comes from a usable row of the snapshot whose name contains the query and one of whose trigger cells is coloured; it holds that row's trimmed name, partner and note, and its name contains the query |
| Scan.UnusableRowsIgnored | app.py:130-134 | removing a header, non-list or short row never changes the result |
| Scan.NonDictionarySnapshot | app.py:119-120 | a snapshot that is not a dictionary yields None |
| Scan.CyanIsBlue | app.py:42-79 | the background {0, 1, 1} is blue |
| Scan.SampleRowCells | app.py:136-137 | a 16-cell row reads its name from column 10 and empty partner and note from empty cells, which carry no colour |
| Scan.CyanRowFound | app.py:129-156 | a matching row whose name cell is cyan is found, with its trimmed name and empty partner and note |
| Scan.UncolouredRowPasses | app.py:143-151 | a row with no background anywhere lets the scan go on, whatever its name |
| Scan.SnapshotWithOneHit | app.py:118-158 | the snapshot {"1": header, "5": cyan matching row} gives that row's trimmed name |
| Scan.LaterColouredRowWins | app.py:124-158 | with an uncoloured matching row "2" and a cyan matching row "3", row "3" is reported |
| Scan.EarlierKeyShadows | app.py:124-158 | with two cyan matching rows "3" and "2" in that snapshot order, row "2" is reported |
| Bot.FilterMentioned | app.py:177 | the filter keeps each district whose lowered name occurs in the text, as many times as it is listed, drops every other, and keeps list order |
| Bot.ExtractDistricts | app.py:176-177 | the districts extracted are exactly those of the province list whose name occurs in the lowered message, as a subsequence of the list |
| Bot.DistrictsDistinct | app.py:29-35 | the 26 district names are pairwise distinct, so the extraction lists each named district once |
| Bot.DistrictsUnchangedByLower | app.py:177 | `d.lower()` is `d` for every district name, so the names are compared as listed |
| Bot.ComposeExtend | app.py:199-212 | proof step for the reply loop's invariant: the loop over one more district is the loop so far followed by that district's line, or a failure if its scan raised |
| Bot.CrashPersists | app.py:199-200 | once a scan has raised, the loop has failed whatever districts follow |
| Bot.ComposeCrashesIffRaised | app.py:199-212 | the loop fails exactly when the scan raises for some district |
| Bot.ComposeLines | app.py:199-212 | otherwise it gives one line per district, each the line for that district's result |
| Bot.ComposeAvailableIffRound | app.py:197-203 | and it reports availability exactly when some district had a hit |
| Bot.ComposeReplies | app.py:196-212 | the imperative reply loop computes exactly the specification of the loop |
| Bot.Messages | app.py:214-216 | the first text joins the lines with newlines; the follow-up question is added exactly when something was available |
| Bot.ReplyLineTellsOutcome | app.py:202-210 | a line begins with the "available" mark exactly when the district had a hit; it then begins with the hospital's name, and otherwise it names the district |
| Bot.ReplyForMeaning | app.py:189-216 | with a loaded snapshot, the handler fails exactly when some scan raises; otherwise it sends one line per district, each that district's line, and a second text exactly when some district had a hit |
| Bot.Handle | app.py:176-194 | no district named: the request-for-hospital reply with the state untouched; otherwise the new state is the old one when ready and the fetch's result when not, and the syncing text is the reply exactly when that state holds no dictionary; the state invariant is kept |
| Bot.SyncingIffNoTable | app.py:189-194 | once a district is named, the syncing text is the reply exactly when no table is loaded |
| Bot.LineNeverSyncing | app.py:204-210 | every reply line starts with the available or the not-available mark, so it never starts like the syncing text |
| Bot.UnreadyWithoutFetchSyncs | app.py:186-194 | before any snapshot has arrived, a fetch that brings nothing leaves the state alone and the reply is the syncing text |
| Bot.ClassifyPayload | app.py:107-115 | a payload is accepted exactly when it is a dictionary holding the key, and then its table is the value under the key; a falsy payload, or a dictionary without the key, is rejected |
| Bot.AfterUpdate | app.py:109-113 | an accepted payload installs its table and sets ready; anything else leaves the state alone |
| Bot.AfterFetch | app.py:90-101 | the fetch either leaves the state alone or leaves it ready |
| Bot.TransitionsKeepReady | app.py:105-115 | no transition withdraws readiness, and every transition keeps the invariant that an unready state holds no data |
| Bot.UpdateIdempotent | app.py:109-113 | delivering the same payload twice has the effect of delivering it once |
| Bot.UpdateReplacesWholesale | app.py:112-113 | after an accepted update the previous snapshot has no trace in the state |
| Bot.FetchAgreesWithUpdate | app.py:96-98 | the fetch installs a snapshot exactly when `/update` would accept the same body, and then installs the same one |
| Bot.NonDictionaryPayloadFails | app.py:109-112 | a list holding the key string, a string containing it, or a number passes or breaks the key test and ends in a `TypeError`, while a list without the key is rejected |
| Bot.SheetStore.constructor | app.py:25-26 | the store starts with no data and not ready |
| Bot.SheetStore.UpdateSheet | app.py:105-115 | the status is 400, 200 or 500 as the payload's class says, and the new state is exactly the update transition of the old one |
| Bot.SheetStore.FetchSheetData | app.py:82-101 | the new state is exactly the fetch transition of the old one |
| Bot.SheetStore.HandleMessage | app.py:174-218 | the outcome and the new state are exactly those of the handler specification |

## Left out

- The Flask routes and request handling are not modelled. This covers `callback`, LINE signature checking and the `reply_message` calls. The handler's outcome stands for the texts it would send.
- JSON decoding of request and response bodies is not modelled. Payloads are already-decoded `Value`s.
- `fetch_sheet_data` does HTTP through `requests`, with a timeout, and reads `os.getenv`. This is replaced by its decoded body as a parameter. `None` stands for an unset URL or a failed request or decode.
- The daemon thread that fetches at startup, and the unsynchronised writes to the globals, are not modelled. Concurrency is out of scope.
- All `print` logging is left out. This includes the `len(...)` in the fetch. If that call raises, the exception is caught after the state has already changed, and the model's state agrees.
- Colour.ToFloat: strings are treated as unparseable. Python's `float("0.5")` would parse them, but string-to-float parsing is not modelled.
- Colour.Trunc: components are exact reals. IEEE rounding, infinities (whose `int()` raises an uncaught `OverflowError`) and NaN are not modelled.
- Text.Lower: only ASCII letters change case. Python's full Unicode case mapping is not modelled. Thai text has no case, so it is unaffected either way.
- Text.IsDigits: only ASCII digits count. Python's `isdigit` also accepts other Unicode digits.
- Values.Str: a number prints as the text it carries. Python's float formatting is not modelled. `repr` of a string is quoted without escaping.
- Scan.CheckRow: the loop over the three trigger columns is a separate method, `TriggerCellColoured`. It reports whether a coloured cell exists, and the row body then reads the partner and note cells. The values and the exceptions are the same as when the code returns from inside the column loop.

