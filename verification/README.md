# Sensor-logging service: verified model of request validation and the data path

This project models, in Dafny, the core of a small sensor-logging service. Sensors POST
distance readings for a research group. Clients GET a plain-text report of a group's
readings, either all of them or only those in a trailing time window. The same readings
are bucketed per sensor to be plotted.

The model covers the following, one module per concern:

- `Text`: the parts of Python's `str` the service relies on: `split` on one character,
  `join` and `index`.
- `Numbers`: `is_nonnegative_number` over the decimal-literal subset of Python's `float`
  and `int` constructors. Distances are exact decimals (`Decimal`). It also renders
  numbers as text.
- `Registry`: the static `GROUPS` registry of groups and their sensors.
- `Faults`: every error the model raises, with the exact text the client sees.
- `Forms`: `split_body`, `split_query_string` and the request dictionary `preprocessing`
  builds (`Request`).
- `Validation`: `sanitize_get` and `sanitize_post`. Their checks are an indexed table of
  rules, and the sanitizers are proved to report the first rule that fails.
- `Store`: the per-group tables as append-only `seq<Row>`. It covers table creation,
  insert, the full listing and the windowed listing `timing > now - window`.
- `Report`: `format_db_data`.
- `Plots`: the per-sensor bucketing of `plot_data`, with the bias at each sensor's
  first-seen time, and the choice of which sensors get a chart.
- `Handlers`: `handle_get`, `handle_post` and `request_handler`.
- `Server`: how `do_GET` and `do_POST` assemble a request and hand it on.

Timestamps are integers counting microseconds. The current time `now` is a parameter. A
window of `w` seconds therefore reaches back `w * 1000000` units.

Some behaviours of the code are easy to miss, and the model keeps them:

- Each missing field has its own message. A GET without `group_id`, a POST without
  `group_id`, `sensor_id` or `distance` each raise a different text, and the model keeps
  every one (`Faults.Message`).
- A GET whose `args` name a key that `values` lacks fails with a Python `KeyError`. The
  model calls this `MissingKey`.
- `-0` and `-0.0` are accepted as distances, because `-0.0 >= 0` holds in Python.
  `NegativeZeroAccepted` states this.

## Model

| member | source | states |
|---|---|---|
| `Text.Split` | local_server.py:29 | every piece of a split is free of the separator and there is always at least one piece |
| `Text.JoinSplit` | local_server.py:23 | joining the pieces of `s.split(c)` with `c` gives back `s`, so splitting loses and invents nothing |
| `Text.SplitJoin` | local_server.py:23 | splitting a join of separator-free pieces recovers exactly those pieces |
| `Text.SplitWithoutSeparator` | local_server.py:29-31 | a text without the separator splits into itself alone, so a segment without `=` has no second piece and raises the IndexError that is caught |
| `Text.SplitAtSeparator` | local_server.py:29 | `a + sep + b` with `a` separator-free splits into `a` followed by the pieces of `b` |
| `Text.SplitThree` | local_server.py:23 | three separator-free pieces joined by the separator split back into exactly those three |
| `Text.FirstIndex` | local_server.py:46 | `path.index('?')` is a position holding `?` with no `?` before it |
| `Numbers.ParseFloat` | db_stuffs.py:119 | `float(...)` rejects the empty text; see `Numbers.ParseRender` for its round trip |
| `Numbers.ParseInt` | db_stuffs.py:119 | `int(...)` never accepts text containing a decimal point; see `Numbers.ParseShowInt` for its round trip |
| `Numbers.IsNonnegativeNumber` | db_stuffs.py:118-122 | an accepted text is non-empty, and with the int constructor a text holding `.` is rejected |
| `Numbers.ParsePointMagnitude` | db_stuffs.py:189 | `float` reads `whole.fraction` as the value of the digits of both sides, scaled by the length of the fraction |
| `Numbers.ParseRenderMagnitude` | db_stuffs.py:189 | `float` reads every rendered unsigned decimal back as exactly that decimal |
| `Numbers.ParseRender` | db_stuffs.py:189 | round trip: `float` reads every rendered decimal back as exactly that decimal |
| `Numbers.ParseShowInt` | db_stuffs.py:145 | round trip: `int` reads every rendered integer back as exactly that integer |
| `Numbers.NonnegativeRender` | db_stuffs.py:119-120 | the float check accepts a rendered decimal if and only if its value is at least zero |
| `Numbers.NonnegativeShowInt` | db_stuffs.py:143 | the int check accepts a rendered integer if and only if it is at least zero |
| `Numbers.RenderedNumbersArePlain` | db_stuffs.py:215 | a rendered distance or timestamp never contains a line break, so it cannot split a report line |
| `Numbers.RejectedExamples` | db_stuffs.py:92-99 | `''`, `'a'`, `'.'` and `'ofwnJWNFK'` are rejected, as documented |
| `Numbers.NegativeRejected` | db_stuffs.py:100-101 | `'-1'` is rejected, as documented |
| `Numbers.SecondPointRejected` | db_stuffs.py:119-122 | a numeral whose digits are followed by a point and then by text holding a second point is rejected |
| `Numbers.TwoPointsRejected` | db_stuffs.py:102-103 | `'2837948.2327839.238'` (two points) is rejected, as documented |
| `Numbers.AcceptedWholeExamples` | db_stuffs.py:105-114 | `'0'`, `'1'` and `'3823872398'` are accepted, as documented |
| `Numbers.AcceptedPointExamples` | db_stuffs.py:109-116 | `'1.0'`, `'0.1'` and `'38238723.98'` are accepted, as documented |
| `Numbers.NegativeZeroAccepted` | db_stuffs.py:119-120 | `'-0'` is accepted by both constructors because `-0 >= 0`, and `'-0.0'` by the float constructor because `-0.0 >= 0` |
| `Numbers.PointLiteralAccepted` | db_stuffs.py:119-120 | every `digits.digits` literal with a non-empty integer part is accepted |
| `Numbers.PointAtAccepted` | db_stuffs.py:119-120 | a text whose only point has digits on both sides and at least one before it is accepted |
| `Numbers.DigitLiteralAccepted` | db_stuffs.py:119-120 | every non-empty string of digits is accepted |
| `Registry.RegistryIdsArePlain` | db_stuffs.py:13-17 | no registered group or sensor id contains a line break |
| `Faults.Message` | db_stuffs.py:133-188 | no contract of its own: the exact text of each exception, which `Faults.Failed` prefixes and the handler lemmas return |
| `Faults.Failed` | db_stuffs.py:250-251 | every failure reply starts with `'\nFAILED:\n\t'`, so a failure is recognisable from its prefix |
| `Forms.Binding` | local_server.py:29-32 | a segment binds a key exactly when it contains `=`; otherwise it is skipped |
| `Forms.AddSegment` | local_server.py:28-32 | a segment without `=` leaves the dictionary as it was; otherwise only its key changes, to its value |
| `Forms.AddSegments` | local_server.py:27-32 | the loop never removes a key and adds only keys some segment binds; `Forms.AddSegmentsLastWins` gives every value |
| `Forms.SplitBody` | local_server.py:22-32 | `split_body` never removes a key, adds only keys a segment binds, and a body without `&` is one segment |
| `Forms.PlainSegmentBinding` | local_server.py:29-30 | a segment `k=v` binds `k` to `v` |
| `Forms.ExtraSegmentBinding` | local_server.py:29-30 | a segment `k=v=tail` binds `k` to `v` and drops `tail` |
| `Forms.SegmentBinding` | local_server.py:29-30 | a segment `k=v` or `k=v=...` binds `k` to `v` |
| `Forms.AddSegmentsLastWins` | local_server.py:27-30 | after the loop a key is present if and only if it was before or some segment binds it; the last binding segment decides its value; keys no segment names keep their value |
| `Forms.MalformedSegmentSkipped` | local_server.py:31-32 | a segment without `=` leaves the dictionary unchanged |
| `Forms.EmptyBodyAddsNothing` | local_server.py:22-32 | the empty body adds nothing |
| `Forms.SegmentValueIsLiteral` | local_server.py:29-30 | for `k=v=...` the stored value is the literal text between the first and second `=` |
| `Forms.ThreeSegments` | local_server.py:27-30 | three well-formed segments bind their keys in order, a later one overwriting an earlier one |
| `Forms.ExampleSegments` | local_server.py:17 | the documented body splits into its three segments |
| `Forms.ExampleBindings` | local_server.py:18-20 | the three segments of the documented body build the documented dictionary |
| `Forms.SplitBodyExample` | local_server.py:15-20 | `"way=1&lon=19.32940&len=2349"` gives `{way:'1', lon:'19.32940', len:'2349'}` |
| `Forms.SplitQueryString` | local_server.py:45-51 | a path without `?` leaves the values unchanged; otherwise only the text after the first `?` is parsed |
| `Forms.QueryAfterFirstMark` | local_server.py:45-51 | when the first `?` is at position `i`, exactly the text after position `i` is parsed |
| `Forms.SplitQueryStringExample` | local_server.py:38-43 | `"/?way=1&lon=19.32940&len=2349"` gives the documented dictionary |
| `Forms.Preprocess` | local_server.py:69-79 | `values` is what `split_query_string` makes of the path; `args` is exactly the keys of `values`; a form exists, empty, only for POST; no `?` means no values |
| `Validation.SanitizeGet` | db_stuffs.py:132-153 | on success the group is the request's `group_id` and registered; the window is absent exactly when `window` is not in `args`, and otherwise it is the non-negative integer the text denotes |
| `Validation.GetAcceptedIffAllRules` | db_stuffs.py:132-147 | a GET validates if and only if all five rules hold |
| `Validation.GetFirstFailureWins` | db_stuffs.py:132-147 | a GET fails with rule `i`'s error if and only if rule `i` is the first rule that fails |
| `Validation.SanitizePost` | db_stuffs.py:164-196 | on success the form holds `group_id`, `sensor_id` and `distance`; the group is registered, the sensor belongs to it, and the distance is the non-negative value its text denotes |
| `Validation.PostAcceptedIffAllRules` | db_stuffs.py:164-188 | a POST validates if and only if all seven rules hold |
| `Validation.PostFirstFailureWins` | db_stuffs.py:164-188 | a POST fails with rule `i`'s error if and only if rule `i` is the first rule that fails |
| `Validation.ValidPostAccepted` | db_stuffs.py:164-196 | a form naming a registered sensor of a registered group with a non-negative distance validates with exactly those values |
| `Validation.EmptyGroupRejectsEveryPost` | db_stuffs.py:176-180 | every POST for `SKRT`, whose sensor set is empty (line 16), fails at the sensor checks |
| `Validation.UnregisteredSensorRejected` | db_stuffs.py:178-180 | a sensor outside its registered group's set always gives the membership error |
| `Store.CreateTable` | db_stuffs.py:32 | `CREATE TABLE IF NOT EXISTS` adds the group with an empty table and leaves existing tables untouched |
| `Store.CreateAllTables` | db_stuffs.py:290-292 | after the loop every registered group has a table, new ones empty, old ones untouched |
| `Store.CreateTableIdempotent` | db_stuffs.py:32 | creating a table twice equals creating it once |
| `Store.CreateAllTablesIdempotent` | db_stuffs.py:290-292 | creating all tables twice equals creating them once |
| `Store.LookupAll` | db_stuffs.py:46-47 | the full listing is the group's table in storage order; a missing table is an error |
| `Store.After` | db_stuffs.py:64-65 | every listed row is a stored row strictly after the cutoff |
| `Store.Cutoff` | db_stuffs.py:61 | the cutoff never lies after the current time, and a positive window puts it strictly before |
| `Store.LookupWindow` | db_stuffs.py:61-65 | the windowed listing is the group's table filtered to rows stamped strictly after `now - window` seconds, in storage order (see `Store.AfterMembership`, `Store.AfterAppend`); a missing table is an error |
| `Store.Insert` | db_stuffs.py:78-79 | an insert appends exactly the given row at the end of its group's table and changes no other table |
| `Store.InsertThenLookup` | db_stuffs.py:71-81 | the listing after an insert is the listing before it followed by the new row |
| `Store.FreshInsertRoundTrip` | db_stuffs.py:71-81 | one insert into a fresh table reads back as exactly that one row |
| `Store.AfterMembership` | db_stuffs.py:64 | a row is in the windowed listing if and only if it is stored and strictly after the cutoff |
| `Store.AfterAppend` | db_stuffs.py:64-65 | the windowed listing keeps storage order: filtering distributes over concatenation |
| `Store.WindowBoundaryExclusive` | db_stuffs.py:61-64 | a row exactly `window` seconds old is excluded; one a unit later is included |
| `Store.WideWindowListsAll` | db_stuffs.py:61-65 | a window reaching past every row lists the whole table |
| `Report.FormatDbData` | db_stuffs.py:205-217 | the sentinel is returned if and only if there are no rows; otherwise the text starts with the header |
| `Report.SingleRowReport` | db_stuffs.py:210-217 | a single row is reported as the header, a line break and its row line |
| `Report.RowLinePlain` | db_stuffs.py:215 | a row line has no line break when its group and sensor have none |
| `Report.RowLine` | db_stuffs.py:215 | a row's line starts with its group id and `, `; `Report.RowLinePlain` shows it stays on one line |
| `Report.RowLinesPlain` | db_stuffs.py:214-215 | when no group or sensor id holds a line break, no row line does |
| `Report.ReportLines` | db_stuffs.py:210-217 | when the group id and every row's sensor id are free of line breaks, a non-empty report splits into the header and one line per row, in row order, so it has rows + 1 lines |
| `Plots.FormatTimestamp` | visualization.py:14-21 | a new sensor records its own time as bias and gets relative time 0; a known sensor's bias is unchanged and its time is taken relative to it |
| `Plots.UpdateDictionaries` | visualization.py:32-40 | a row touches only its own sensor's bucket, and a known sensor's bias never changes |
| `Plots.BucketRows` | visualization.py:84-85 | the loop never removes a bucket; `Plots.BucketRowsSpec` gives each bucket's contents |
| `Plots.Bucketize` | visualization.py:81-85 | no contract of its own; `Plots.BucketizeSpec` characterises every bucket against the reference `OfSensor` |
| `Plots.SelectedSensors` | visualization.py:80-95 | the sensor asked for, else every sensor registered for the group; `Plots.DefaultPlotsAreRegisteredSensors` relates it to the charts drawn |
| `Plots.BucketRowsSpec` | visualization.py:84-85 | the loop extends each sensor's series by exactly that sensor's rows, in order; a new sensor starts at its first row |
| `Plots.BucketRowsKnown` | visualization.py:35-37 | a sensor already bucketed keeps its bias and gains exactly its own rows, in order |
| `Plots.BucketRowsNew` | visualization.py:16-19 | a sensor not yet bucketed gets a series if and only if it has rows; the series is its rows relative to its first row's time |
| `Plots.BucketizeSpec` | visualization.py:84-85 | a sensor has a bucket if and only if it has rows; its bias is its first row's time; its distances and relative times follow its rows in order |
| `Plots.FirstReadingIsOrigin` | visualization.py:14-21 | equal-length distance and time lists; the first reading is at 0 and each later one at its time minus the first time |
| `Plots.PointsOfWithout` | visualization.py:84-85 | counting the points of a set of buckets does not depend on which bucket is counted first |
| `Plots.PointsOfAgree` | visualization.py:84-85 | buckets of equal size give equal point counts |
| `Plots.UpdateAddsOnePoint` | visualization.py:35-40 | bucketing one row adds exactly one point in total |
| `Plots.BucketRowsCountsRows` | visualization.py:84-85 | the loop adds one point per row |
| `Plots.BucketizeCountsRows` | visualization.py:84-85 | the points over all buckets total the number of rows |
| `Plots.PlotSensorData` | visualization.py:46-51 | a sensor without a bucket gets no chart; otherwise the chart shows its bucket |
| `Plots.PlotData` | visualization.py:80-95 | an unregistered group raises a KeyError; otherwise the charts are the selected sensors that have buckets |
| `Plots.DefaultPlotsAreRegisteredSensors` | visualization.py:87-93 | with no sensor named, a sensor gets a chart if and only if it is registered for the group and has rows |
| `Handlers.Fetch` | db_stuffs.py:238-243 | without a window the full table is read; with one, the rows strictly after `now - window` |
| `Handlers.HandleGet` | db_stuffs.py:232-251 | a validation error or missing table gives its `FAILED` text; otherwise the reply is the report of the rows fetched |
| `Handlers.HandlePost` | db_stuffs.py:260-270 | a failed POST replies `FAILED` and leaves the store as it was; a valid one appends `(sensor, distance, now)` to its group and replies with the success text |
| `Handlers.RequestHandler` | db_stuffs.py:291-304 | every registered table is created; POST and GET are dispatched; any other method gets the fixed unknown-format text |
| `Handlers.PostChangesStoreOnlyOnSuccess` | db_stuffs.py:260-270 | a POST either succeeds and changes the store by appending exactly one row, or starts with `FAILED` and changes nothing |
| `Handlers.RequestHandlerKeepsConsistency` | db_stuffs.py:291-300 | every stored row keeps a registered sensor of its group and a non-negative distance, across any request |
| `Handlers.CreateAllTablesKeepsConsistency` | db_stuffs.py:291-292 | creating the registered tables keeps the store consistent |
| `Handlers.HandlePostKeepsConsistency` | db_stuffs.py:260-267 | a POST appends only a validated reading, so it keeps the store consistent |
| `Handlers.HandlerOutcomeIsValidationOutcome` | db_stuffs.py:291-300 | behind `request_handler` storage is reached only with registered groups: a POST succeeds if and only if it validates, and a GET fails if and only if it does not validate |
| `Handlers.GetReportHasOneLinePerRow` | db_stuffs.py:238-248 | for a GET that validates against a consistent store and reads at least one row, the reply is the header and one line per row read, in storage order |
| `Handlers.GetWithoutInsertsIsEmpty` | db_stuffs.py:205-207 | a GET for a group with no rows returns the no-data sentinel |
| `Handlers.NegativeDistanceRejected` | db_stuffs.py:186-188 | a POST with distance `-1` for a registered sensor gets the distance error |
| `Handlers.ZeroDistanceAccepted` | db_stuffs.py:186-189 | a POST with distance `0` for a registered sensor succeeds |
| `Server.ServeGet` | local_server.py:84-90 | a GET reply is `handle_get` on the preprocessed request over a store with every table created; a path without `?` carries no `group_id` and fails with the missing-group error |
| `Server.PostRequest` | local_server.py:96-101 | the POST request's form is exactly the body's bindings |
| `Server.ServePost` | local_server.py:92-104 | a POST reply is `handle_post` on that request over a store with every table created; the store changes only when the reply is the success text; an empty body fails with the missing-group error |
| `Server.ExamplePostForm` | local_server.py:101 | the body `group_id=CSAIL&sensor_id=csail-0&distance=3.2` fills the form with those three fields |
| `Server.ExampleGetValues` | local_server.py:78 | the path `/?group_id=CSAIL` yields the single value `group_id = CSAIL` |
| `Server.ExampleGetQuery` | db_stuffs.py:132-153 | the path `/?group_id=CSAIL` validates as a full listing of `CSAIL`, with no window |
| `Server.ExampleDistance` | db_stuffs.py:189 | `float('3.2')` reads as 32 tenths and renders back as `3.2` |
| `Server.ExamplePostValidates` | db_stuffs.py:164-196 | the example body validates as a 3.2 reading from `csail-0` of `CSAIL` |
| `Server.ExamplePost` | db_stuffs.py:260-267 | that POST to a fresh service succeeds and stores exactly one row |
| `Server.ExampleGet` | db_stuffs.py:238-248 | a GET for `CSAIL` over a one-row table reports that row under the header |
| `Server.PostThenGetScenario` | db_stuffs.py:260-267 | the POST succeeds and a later GET for `CSAIL` returns the header and the line `CSAIL, csail-0, 3.2, <t1>` |

## Left out

- The HTTP server, sockets, status line, headers, `Content-Length`, UTF-8 decoding and `serve_forever`. These are I/O plumbing. Every reply is text; the source always answers with status 200.
- sqlite connections, SQL text and commits. Each table is an in-memory `seq<Row>`, and `CREATE TABLE IF NOT EXISTS` becomes "add the key if it is absent".
- `datetime.now()`. The current time is the parameter `now`.
- The logging `print` for a malformed segment. The model only skips the segment.
- matplotlib figures, labels, `savefig`, `show` and the file names of the charts. A chart is modelled as the data it would draw (`Plot`); the `display` flag has no effect on that data. In the source, a failure while drawing or saving a chart (for example `savefig` into a missing `graphs/` directory) is caught by `handle_get` and turns the whole GET into a `FAILED` reply. The model's plotting cannot fail, so `Handlers.HandlerOutcomeIsValidationOutcome` holds only under that assumption.
- `globals` is not part of this model. Its `GROUPS` is taken to be the registry at db_stuffs.py:13-17.
- Numbers.ParseFloat: covers only ASCII digits, in the forms `[sign] digits`, `[sign] digits.digits`, `[sign] digits.` and `[sign] .digits`. Surrounding whitespace, underscores, exponents, `inf`, `nan` and the other Unicode decimal digits, which Python's `float` also accepts, are out of scope. Distances are exact decimals, not IEEE doubles. One consequence: a negative literal too small for a double, such as `-0.` followed by 400 zeros and a `1`, becomes `-0.0` in Python and is accepted as a distance, because `-0.0 >= 0`. The model keeps its exact negative value and rejects it with the invalid-distance message.
- Numbers.ParseInt: covers only `[sign] digits` with ASCII digits, without whitespace, underscores or the other Unicode decimal digits Python's `int` accepts. In the other direction, CPython 3.11 and later (and the 3.7-3.10 security releases) reject a decimal string of more than 4300 digits with ValueError. For such a window `is_nonnegative_number` returns False and the GET fails with the invalid-window message. The model has no digit limit, so it accepts that window and lists rows.
- Report.FormatDbData: renders a distance as its parsed decimal digits and a timestamp as its integer count. The source prints Python's float `str` (after sqlite's NUMERIC affinity, `1.0` comes back as `1`) and the datetime text.
- Store.LookupWindow: `timestamp - timedelta(seconds = window)` raises OverflowError ("date value out of range") once the cutoff would fall before 1 January of year 1. At present-day times that is any window over roughly 6.4e10 seconds, about two thousand years. `timedelta` itself overflows beyond 999999999 days. The model's integers never overflow, so such a GET lists rows instead of answering `FAILED`.
- Plots.FormatTimestamp: parsing the stored timestamp text with `strptime` is left out, because timestamps are integers here. With the format `"%Y-%m-%d %H:%M:%S.%f"`, a stored timestamp whose microseconds are exactly zero (stored without a fractional part) would raise, and the whole GET would fail. The model does not reproduce this failure.
- Plots.FormatTimestamp: relative times are integer microseconds. The source takes `.timestamp()` and works in floating-point seconds.
- Plots: `data_dict` and `time_dict` are merged into one map of `Series`. The two dictionaries always have the same keys after each `update_dictionaries` call.
- Forms.Preprocess: `args` is the set of keys of `values`, not a list in insertion order. The handlers only test membership in it.
- Concurrency. The service is modelled as handling one request at a time.
