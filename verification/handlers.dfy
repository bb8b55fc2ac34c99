/** The request handlers of db_stuffs.py: `handle_get`, `handle_post` and
    `request_handler`, with every raised error turned into a `FAILED` reply. */
module Handlers {
  import opened Base
  import opened Text
  import opened Numbers
  import opened Registry
  import opened Faults
  import opened Forms
  import opened Validation
  import opened Store
  import opened Report
  import opened Plots

  const PostSuccess: string := "\nSUCCESSFULLY ENTERED DATA INTO DB"
  const UnknownFormat: string := "Unknown request format. Expected either GET or POST"

  /** The text sent back and the store after the request. */
  datatype Reply = Reply(text: string, db: Db)

  /** The rows a validated GET reads: the whole table without a window, else the rows
      stamped strictly after `now - window`. */
  function Fetch(db: Db, q: GetQuery, now: int): (r: Result<seq<Row>, Fault>)
    ensures r.Ok? <==> q.group in db
    ensures r.Ok? && q.window.None? ==> r.value == db[q.group]
    ensures r.Ok? && q.window.Some? ==> r.value == After(db[q.group], Cutoff(now, q.window.value))
  {
    if q.window.None? then LookupAll(db, q.group) else LookupWindow(db, q.group, now, q.window.value)
  }

  /** `handle_get(request, timestamp)`: the charts are drawn as a side effect and only
      their failure shows in the reply. */
  function HandleGet(req: Request, db: Db, now: int): (text: string)
    ensures SanitizeGet(req).Err? ==> text == Failed(SanitizeGet(req).error)
    ensures SanitizeGet(req).Ok? && SanitizeGet(req).value.group !in db ==>
              text == Failed(NoSuchTable(SanitizeGet(req).value.group))
    ensures SanitizeGet(req).Ok? && SanitizeGet(req).value.group in db ==>
              text == FormatDbData(Fetch(db, SanitizeGet(req).value, now).value, SanitizeGet(req).value.group)
  {
    match SanitizeGet(req)
    case Err(e) => Failed(e)
    case Ok(q) =>
      match Fetch(db, q, now)
      case Err(e) => Failed(e)
      case Ok(rows) =>
        match PlotData(rows, q.group, None)
        case Err(e) => Failed(e)
        case Ok(_) => FormatDbData(rows, q.group)
  }

  /** `handle_post(request, timestamp)`: one row stamped `now` appended on success,
      the store untouched otherwise. */
  function HandlePost(req: Request, db: Db, now: int): (r: Reply)
    ensures SanitizePost(req).Err? ==> r == Reply(Failed(SanitizePost(req).error), db)
    ensures SanitizePost(req).Ok? && SanitizePost(req).value.group !in db ==>
              r == Reply(Failed(NoSuchTable(SanitizePost(req).value.group)), db)
    ensures SanitizePost(req).Ok? && SanitizePost(req).value.group in db ==>
              var p := SanitizePost(req).value;
              r.text == PostSuccess && Insert(db, p.group, Row(p.sensor, p.distance, now)) == Ok(r.db)
  {
    match SanitizePost(req)
    case Err(e) => Reply(Failed(e), db)
    case Ok(p) =>
      match Insert(db, p.group, Row(p.sensor, p.distance, now))
      case Err(e) => Reply(Failed(e), db)
      case Ok(db') => Reply(PostSuccess, db')
  }

  /** `request_handler(request)` at time `now`: every registered table is created, then
      the request is dispatched on its method. */
  function RequestHandler(req: Request, db: Db, now: int): (r: Reply)
    ensures r.db.Keys == db.Keys + Groups.Keys
    ensures req.verb == "POST" ==> r == HandlePost(req, CreateAllTables(db), now)
    ensures req.verb == "GET" ==> r == Reply(HandleGet(req, CreateAllTables(db), now), CreateAllTables(db))
    ensures req.verb != "POST" && req.verb != "GET" ==> r == Reply(UnknownFormat, CreateAllTables(db))
  {
    var ready: Db := CreateAllTables(db);
    if req.verb == "POST" then HandlePost(req, ready, now)
    else if req.verb == "GET" then Reply(HandleGet(req, ready, now), ready)
    else Reply(UnknownFormat, ready)
  }

  // Properties of the handlers

  /** A POST either succeeds and appends exactly one row to its group's table, or fails
      with a `FAILED` reply and leaves the store as it was. */
  lemma PostChangesStoreOnlyOnSuccess(req: Request, db: Db, now: int)
    ensures var r := HandlePost(req, db, now);
            (r.text == PostSuccess && r.db != db) || (StartsWithFailed(r.text) && r.db == db)
    ensures var r := HandlePost(req, db, now);
            r.text == PostSuccess ==>
              var p := SanitizePost(req).value;
              && SanitizePost(req).Ok? && p.group in db
              && r.db == db[p.group := db[p.group] + [Row(p.sensor, p.distance, now)]]
  {
    var r := HandlePost(req, db, now);
    assert PostSuccess[1] != FailedPrefix[1];
    if SanitizePost(req).Ok? && SanitizePost(req).value.group in db {
      var g := SanitizePost(req).value.group;
      assert |r.db[g]| != |db[g]|;
    }
  }

  /** Every stored row belongs to a registered sensor of its group and has a
      non-negative distance; only registered groups have tables. */
  predicate Consistent(db: Db) {
    forall g :: g in db ==>
      && g in Groups
      && forall i :: 0 <= i < |db[g]| ==> db[g][i].sensor in Groups[g] && db[g][i].distance.NonNegative()
  }

  /** Serving any request keeps the store consistent: validation precedes every insert. */
  lemma RequestHandlerKeepsConsistency(req: Request, db: Db, now: int)
    requires Consistent(db)
    ensures Consistent(RequestHandler(req, db, now).db)
  {
    CreateAllTablesKeepsConsistency(db);
    if req.verb == "POST" {
      HandlePostKeepsConsistency(req, CreateAllTables(db), now);
    }
  }

  /** Creating the registered tables adds only empty tables of registered groups. */
  lemma CreateAllTablesKeepsConsistency(db: Db)
    requires Consistent(db)
    ensures Consistent(CreateAllTables(db))
  {
    var ready: Db := CreateAllTables(db);
    forall g: string | g in ready
      ensures g in Groups
      ensures forall i :: 0 <= i < |ready[g]| ==> ready[g][i].sensor in Groups[g] && ready[g][i].distance.NonNegative()
    {
      if g !in db {
        assert ready[g] == [];
      }
    }
  }

  /** A POST appends only a validated reading, so it keeps the store consistent. */
  lemma HandlePostKeepsConsistency(req: Request, db: Db, now: int)
    requires Consistent(db)
    ensures Consistent(HandlePost(req, db, now).db)
  {
    var r := HandlePost(req, db, now);
    if SanitizePost(req).Ok? && SanitizePost(req).value.group in db {
      var p := SanitizePost(req).value;
      var row := Row(p.sensor, p.distance, now);
      assert r.db == db[p.group := db[p.group] + [row]];
      forall g: string | g in r.db
        ensures g in Groups
        ensures forall i :: 0 <= i < |r.db[g]| ==> r.db[g][i].sensor in Groups[g] && r.db[g][i].distance.NonNegative()
      {
        if g == p.group {
          forall i | 0 <= i < |r.db[g]|
            ensures r.db[g][i].sensor in Groups[g] && r.db[g][i].distance.NonNegative()
          {
            if i < |db[g]| {
              assert r.db[g][i] == db[g][i];
            } else {
              assert r.db[g][i] == row;
            }
          }
        }
      }
    }
  }

  /** Behind `request_handler`, storage is reached only with a registered group, so the
      missing-table error never shows: a POST succeeds exactly when it validates, and a
      GET fails exactly when it does not validate. */
  lemma HandlerOutcomeIsValidationOutcome(req: Request, db: Db, now: int)
    ensures req.verb == "POST" ==>
              (RequestHandler(req, db, now).text == PostSuccess <==> SanitizePost(req).Ok?)
    ensures req.verb == "GET" ==>
              (StartsWithFailed(RequestHandler(req, db, now).text) <==> SanitizeGet(req).Err?)
  {
    assert PostSuccess[1] != FailedPrefix[1];
    assert NoData[0] != FailedPrefix[0] && Header[0] != FailedPrefix[0];
  }

  /** The report of a GET under a consistent store: one line per row read, after the header. */
  lemma GetReportHasOneLinePerRow(req: Request, db: Db, now: int)
    requires Consistent(db) && req.verb == "GET" && SanitizeGet(req).Ok?
    ensures var q := SanitizeGet(req).value;
            var rows := Fetch(CreateAllTables(db), q, now).value;
            |rows| > 0 ==>
              Split(RequestHandler(req, db, now).text, '\n') == [Header] + RowLines(q.group, rows)
  {
    var q := SanitizeGet(req).value;
    var ready: Db := CreateAllTables(db);
    assert Consistent(ready);
    var rows := Fetch(ready, q, now).value;
    RegistryIdsArePlain();
    forall i | 0 <= i < |rows| ensures '\n' !in rows[i].sensor {
      if q.window.Some? {
        AfterMembership(ready[q.group], Cutoff(now, q.window.value), rows[i]);
      }
    }
    if |rows| > 0 {
      ReportLines(rows, q.group);
    }
  }

  /** A GET for a group nothing was ever inserted for returns the empty-result sentinel. */
  lemma GetWithoutInsertsIsEmpty(req: Request, db: Db, now: int)
    requires req.verb == "GET" && SanitizeGet(req).Ok?
    requires var g := SanitizeGet(req).value.group; g !in db || db[g] == []
    ensures RequestHandler(req, db, now).text == NoData
  {
  }

  /** A POST whose distance is `-1` fails at the distance check, after passing every
      check before it. */
  lemma NegativeDistanceRejected(db: Db, now: int, group: string, sensor: string)
    requires group in Groups && sensor in Groups[group]
    ensures var form := map["group_id" := group, "sensor_id" := sensor, "distance" := "-1"];
            RequestHandler(Request("POST", map[], {}, Some(form)), db, now).text == Failed(InvalidDistance)
  {
    NegativeRejected();
  }

  /** A POST whose distance is `0` for a registered sensor succeeds: zero is a valid reading. */
  lemma ZeroDistanceAccepted(db: Db, now: int, group: string, sensor: string)
    requires group in Groups && sensor in Groups[group]
    ensures var form := map["group_id" := group, "sensor_id" := sensor, "distance" := "0"];
            RequestHandler(Request("POST", map[], {}, Some(form)), db, now).text == PostSuccess
  {
    AcceptedWholeExamples();
  }
}
