/** The request assembly of local_server.py's `do_GET` and `do_POST`: the request
    dictionary is built, every registered table created, and the handler called. */
module Server {
  import opened Base
  import opened Text
  import opened Numbers
  import opened Registry
  import opened Forms
  import opened Validation
  import opened Store
  import opened Report
  import opened Faults
  import opened Handlers

  /** `do_GET` for `path` at time `now`. */
  function ServeGet(db: Db, path: string, now: int): (r: Reply)
    ensures r.db == CreateAllTables(db)
    ensures r.text == HandleGet(Preprocess("GET", path), r.db, now)
    ensures '?' !in path ==> r.text == Failed(GetMissingGroup)
  {
    var ready := CreateAllTables(db);
    Reply(HandleGet(Preprocess("GET", path), ready, now), ready)
  }

  /** The request `do_POST` hands to `handle_post`: the body's segments fill the form
      that `preprocessing` created empty. */
  function PostRequest(path: string, body: string): (req: Request)
    ensures req.verb == "POST" && req.args == req.values.Keys
    ensures req.form == Some(SplitBody(body, map[]))
  {
    var req := Preprocess("POST", path);
    req.(form := Some(SplitBody(body, req.form.value)))
  }

  /** `do_POST` for `path` with `body` at time `now`. */
  function ServePost(db: Db, path: string, body: string, now: int): (r: Reply)
    ensures r == HandlePost(PostRequest(path, body), CreateAllTables(db), now)
    ensures r.text == PostSuccess || r.db == CreateAllTables(db)
    ensures body == "" ==> r == Reply(Failed(PostMissingGroup), CreateAllTables(db))
  {
    EmptyBodyAddsNothing(map[]);
    PostChangesStoreOnlyOnSuccess(PostRequest(path, body), CreateAllTables(db), now);
    HandlePost(PostRequest(path, body), CreateAllTables(db), now)
  }

  /** The example POST body, as its three segments. A literal equation kept apart from
      `ExamplePostSegments` so that the solver never unfolds `Split` over the literal. */
  lemma ExamplePostPieces(body: string)
    requires body == "group_id=CSAIL&sensor_id=csail-0&distance=3.2"
    ensures body == "group_id=CSAIL" + "&" + "sensor_id=csail-0" + "&" + "distance=3.2"
  {
  }

  /** The segments of the example POST body. */
  lemma ExamplePostSegments(body: string)
    requires body == "group_id=CSAIL&sensor_id=csail-0&distance=3.2"
    ensures Split(body, '&') == ["group_id=CSAIL", "sensor_id=csail-0", "distance=3.2"]
  {
    ExamplePostPieces(body);
    SplitThree("group_id=CSAIL", "sensor_id=csail-0", "distance=3.2", '&');
  }

  /** The dictionary the segments of the example POST body build. */
  lemma ExamplePostBindings()
    ensures AddSegments(map[], ["group_id=CSAIL", "sensor_id=csail-0", "distance=3.2"])
         == map["group_id" := "CSAIL", "sensor_id" := "csail-0", "distance" := "3.2"]
  {
    assert "group_id" + "=" + "CSAIL" == "group_id=CSAIL";
    assert "sensor_id" + "=" + "csail-0" == "sensor_id=csail-0";
    assert "distance" + "=" + "3.2" == "distance=3.2";
    ThreeSegments(map[], "group_id", "CSAIL", "sensor_id", "csail-0", "distance", "3.2");
  }

  /** The form the example POST body fills. */
  lemma ExamplePostForm(body: string)
    requires body == "group_id=CSAIL&sensor_id=csail-0&distance=3.2"
    ensures SplitBody(body, map[]) == map["group_id" := "CSAIL", "sensor_id" := "csail-0", "distance" := "3.2"]
  {
    ExamplePostSegments(body);
    ExamplePostBindings();
  }

  /** The query text of the example GET path. */
  lemma ExampleQueryText(path: string)
    requires path == "/?group_id=CSAIL"
    ensures '?' in path && path[FirstIndex(path, '?') + 1..] == "group_id=CSAIL"
  {
    assert path[1] == '?' && path[0] != '?';
    assert FirstIndex(path, '?') == 1;
  }

  /** The single binding of the example GET query. */
  lemma ExampleQueryBinding(item: string)
    requires item == "group_id=CSAIL"
    ensures SplitBody(item, map[]) == map["group_id" := "CSAIL"]
  {
    assert item == "group_id" + "=" + "CSAIL" + "";
    assert '&' !in item;
    SplitWithoutSeparator(item, '&');
    SegmentValueIsLiteral(map[], "group_id", "CSAIL", "");
    assert AddSegments(map[], [item]) == AddSegments(AddSegment(map[], item), []);
  }

  /** The values the example GET path carries. */
  lemma ExampleGetValues(path: string)
    requires path == "/?group_id=CSAIL"
    ensures SplitQueryString(path, map[]) == map["group_id" := "CSAIL"]
  {
    ExampleQueryText(path);
    ExampleQueryBinding(path[FirstIndex(path, '?') + 1..]);
  }

  /** The distance text of the example reads as 3.2 and renders back as `3.2`. */
  lemma ExampleDistance()
    ensures ParseFloat("3.2") == Some(Decimal(false, 32, 1))
    ensures Render(Decimal(false, 32, 1)) == "3.2"
  {
    assert ShowNat(32) == "32";
    assert Render(Decimal(false, 32, 1)) == "3.2";
    ParseRender(Decimal(false, 32, 1));
  }

  /** The example POST validates as a reading of 3.2 from `csail-0` of `CSAIL`. */
  lemma ExamplePostValidates(body: string)
    requires body == "group_id=CSAIL&sensor_id=csail-0&distance=3.2"
    ensures SanitizePost(PostRequest("/", body)) == Ok(PostData("CSAIL", "csail-0", Decimal(false, 32, 1)))
  {
    var req := PostRequest("/", body);
    ExamplePostForm(body);
    var form := req.form.value;
    assert "group_id"[0] != "distance"[0] && |"sensor_id"| != |"group_id"| && |"sensor_id"| != |"distance"|;
    assert form == map["group_id" := "CSAIL", "sensor_id" := "csail-0", "distance" := "3.2"];
    assert form["group_id"] == "CSAIL" && form["sensor_id"] == "csail-0" && form["distance"] == "3.2";
    ExampleDistance();
    assert "csail-0" in Groups["CSAIL"];
    ValidPostAccepted(req, Decimal(false, 32, 1));
  }

  /** The example POST succeeds on a fresh service and stores its one reading. */
  lemma ExamplePost(body: string, t1: int)
    requires body == "group_id=CSAIL&sensor_id=csail-0&distance=3.2"
    ensures ServePost(map[], "/", body, t1).text == PostSuccess
    ensures ServePost(map[], "/", body, t1).db["CSAIL"] == [Row("csail-0", Decimal(false, 32, 1), t1)]
  {
    ExamplePostValidates(body);
    var ready := CreateAllTables(map[]);
    assert "CSAIL" in ready && ready["CSAIL"] == [];
    assert [] + [Row("csail-0", Decimal(false, 32, 1), t1)] == [Row("csail-0", Decimal(false, 32, 1), t1)];
  }

  /** The example GET path validates as a full listing of `CSAIL`. */
  lemma ExampleGetQuery(path: string)
    requires path == "/?group_id=CSAIL"
    ensures SanitizeGet(Preprocess("GET", path)) == Ok(GetQuery("CSAIL", None))
  {
    ExampleGetValues(path);
    var get := Preprocess("GET", path);
    assert get.values == map["group_id" := "CSAIL"];
  }

  /** A GET for `CSAIL` over a table holding one reading reports it under the header. */
  lemma ExampleGet(db: Db, path: string, row: Row, t2: int)
    requires path == "/?group_id=CSAIL"
    requires "CSAIL" in db && db["CSAIL"] == [row]
    ensures ServeGet(db, path, t2).text == Header + "\n" + RowLine("CSAIL", row)
  {
    ExampleGetQuery(path);
    var served := CreateAllTables(db);
    assert served["CSAIL"] == [row];
    SingleRowReport(row, "CSAIL");
  }

  /** The text before the timestamp in the example's report line. A literal equation kept
      apart from `ExampleRowLine`, whose context would otherwise hold every literal at once. */
  lemma ExampleLineFront(group: string, sensor: string, distance: string)
    requires group == "CSAIL" && sensor == "csail-0" && distance == "3.2"
    ensures "\n" + (group + ", " + sensor + ", " + distance + ", ") == "\nCSAIL, csail-0, 3.2, "
  {
  }

  /** The report line of the example reading. */
  lemma ExampleRowLine(row: Row, t1: int)
    requires row == Row("csail-0", Decimal(false, 32, 1), t1)
    ensures Header + "\n" + RowLine("CSAIL", row) == Header + "\nCSAIL, csail-0, 3.2, " + ShowInt(t1)
  {
    ExampleDistance();
    var tail := ShowInt(t1);
    var front := "CSAIL" + ", " + row.sensor + ", " + Render(row.distance) + ", ";
    ExampleLineFront("CSAIL", row.sensor, Render(row.distance));
    assert RowLine("CSAIL", row) == front + tail;
    assert Header + "\n" + (front + tail) == Header + ("\n" + front) + tail;
  }

  /** Posting `group_id=CSAIL&sensor_id=csail-0&distance=3.2` to a fresh service succeeds,
      and a later GET for `CSAIL` reports that one reading under the header. */
  lemma PostThenGetScenario(body: string, path: string, t1: int, t2: int)
    requires body == "group_id=CSAIL&sensor_id=csail-0&distance=3.2"
    requires path == "/?group_id=CSAIL"
    ensures ServePost(map[], "/", body, t1).text == PostSuccess
    ensures ServeGet(ServePost(map[], "/", body, t1).db, path, t2).text
         == Header + "\nCSAIL, csail-0, 3.2, " + ShowInt(t1)
  {
    ExamplePost(body, t1);
    var row := Row("csail-0", Decimal(false, 32, 1), t1);
    ExampleGet(ServePost(map[], "/", body, t1).db, path, row, t2);
    ExampleRowLine(row, t1);
  }
}
