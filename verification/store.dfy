/** The per-group tables of db_stuffs.py as in-memory append-only sequences: table
    creation, insert, full listing and the windowed listing `timing > now - window`. */
module Store {
  import opened Base
  import opened Numbers
  import opened Registry
  import opened Faults

  /** One stored reading: `(sensor_id, distance, timing)`; `timing` counts microseconds. */
  datatype Row = Row(sensor: string, distance: Decimal, timing: int)

  /** Group id to that group's table, rows in insertion order. */
  type Db = map<string, seq<Row>>

  const MicrosPerSecond: nat := 1000000

  /** `create_database(group_id)`: `CREATE TABLE IF NOT EXISTS`. */
  function CreateTable(db: Db, group: string): (r: Db)
    ensures r.Keys == db.Keys + {group}
    ensures group !in db ==> r[group] == []
    ensures forall g :: g in db ==> r[g] == db[g]
  {
    if group in db then db else db[group := []]
  }

  /** `create_database` for every registered group, as `request_handler` and
      `local_db_test_init` do before any request is served. */
  function CreateAllTables(db: Db): (r: Db)
    ensures r.Keys == db.Keys + Groups.Keys
    ensures forall g :: g in db ==> r[g] == db[g]
    ensures forall g :: g in Groups && g !in db ==> r[g] == []
  {
    map g | g in db.Keys + Groups.Keys :: if g in db then db[g] else []
  }

  /** `lookup_database(group_id)`: every row of the group, in storage order; sqlite
      raises when the table does not exist. */
  function LookupAll(db: Db, group: string): (r: Result<seq<Row>, Fault>)
    ensures group in db <==> r.Ok?
    ensures r.Ok? ==> r.value == db[group]
    ensures r.Err? ==> r.error == NoSuchTable(group)
  {
    if group in db then Ok(db[group]) else Err(NoSuchTable(group))
  }

  /** `timestamp - timedelta(seconds = window)`. */
  function Cutoff(now: int, window: nat): (r: int)
    ensures r <= now
    ensures window > 0 ==> r < now
  {
    now - window * MicrosPerSecond
  }

  /** The rows strictly later than `cutoff`, in their original order (`WHERE timing > ?`). */
  function After(rows: seq<Row>, cutoff: int): (r: seq<Row>)
    ensures |r| <= |rows|
    ensures forall i :: 0 <= i < |r| ==> r[i].timing > cutoff && r[i] in rows
    decreases |rows|
  {
    if |rows| == 0 then []
    else if rows[0].timing > cutoff then [rows[0]] + After(rows[1..], cutoff)
    else After(rows[1..], cutoff)
  }

  /** `timed_database_lookup(group_id, timestamp, window)`. */
  function LookupWindow(db: Db, group: string, now: int, window: nat): (r: Result<seq<Row>, Fault>)
    ensures group in db <==> r.Ok?
    ensures r.Err? ==> r.error == NoSuchTable(group)
    ensures r.Ok? ==> forall i :: 0 <= i < |r.value| ==> r.value[i].timing > now - window * MicrosPerSecond
    ensures r.Ok? ==> r.value == After(db[group], Cutoff(now, window))
  {
    if group in db then Ok(After(db[group], Cutoff(now, window))) else Err(NoSuchTable(group))
  }

  /** `insert_into_database(group_id, sensor_id, distance, timestamp)`. */
  function Insert(db: Db, group: string, row: Row): (r: Result<Db, Fault>)
    ensures group in db <==> r.Ok?
    ensures r.Err? ==> r.error == NoSuchTable(group)
    ensures r.Ok? ==> r.value.Keys == db.Keys
    ensures r.Ok? ==> forall g :: g in db && g != group ==> r.value[g] == db[g]
    ensures r.Ok? ==> r.value[group] == db[group] + [row]
  {
    if group in db then Ok(db[group := db[group] + [row]]) else Err(NoSuchTable(group))
  }

  // Properties of the store

  /** Creating a table twice is the same as creating it once. */
  lemma CreateTableIdempotent(db: Db, group: string)
    ensures CreateTable(CreateTable(db, group), group) == CreateTable(db, group)
  {
  }

  /** Creating every registered table twice is the same as creating them once. */
  lemma CreateAllTablesIdempotent(db: Db)
    ensures CreateAllTables(CreateAllTables(db)) == CreateAllTables(db)
  {
  }

  /** A listing after an insert is the earlier listing followed by the new row. */
  lemma InsertThenLookup(db: Db, group: string, row: Row)
    requires group in db
    ensures Insert(db, group, row).Ok?
    ensures LookupAll(Insert(db, group, row).value, group) == Ok(db[group] + [row])
  {
  }

  /** The first insert into a fresh table reads back as exactly that one row. */
  lemma FreshInsertRoundTrip(group: string, row: Row)
    ensures LookupAll(Insert(CreateTable(map[], group), group, row).value, group) == Ok([row])
  {
    var db := CreateTable(map[], group);
    assert db[group] + [row] == [row];
    InsertThenLookup(db, group, row);
  }

  /** A row is listed by the windowed lookup exactly when it is stored and strictly
      later than the cutoff. */
  lemma {:induction false} AfterMembership(rows: seq<Row>, cutoff: int, row: Row)
    ensures row in After(rows, cutoff) <==> row in rows && row.timing > cutoff
    decreases |rows|
  {
    if |rows| > 0 {
      AfterMembership(rows[1..], cutoff, row);
      assert rows == [rows[0]] + rows[1..];
    }
  }

  /** The windowed lookup keeps storage order: filtering a concatenation is the
      concatenation of the filtered parts. */
  lemma {:induction false} AfterAppend(a: seq<Row>, b: seq<Row>, cutoff: int)
    ensures After(a + b, cutoff) == After(a, cutoff) + After(b, cutoff)
    decreases |a|
  {
    if |a| > 0 {
      assert (a + b)[1..] == a[1..] + b;
      AfterAppend(a[1..], b, cutoff);
    } else {
      assert a + b == b;
    }
  }

  /** The window's lower edge is exclusive: a row stamped exactly `window` seconds
      before `now` is not listed, one a microsecond later is. */
  lemma WindowBoundaryExclusive(now: int, window: nat, sensor: string, distance: Decimal)
    ensures After([Row(sensor, distance, now - window * MicrosPerSecond)], Cutoff(now, window)) == []
    ensures After([Row(sensor, distance, now - window * MicrosPerSecond + 1)], Cutoff(now, window))
         == [Row(sensor, distance, now - window * MicrosPerSecond + 1)]
  {
  }

  /** A window reaching back past the oldest row lists the whole table. */
  lemma {:induction false} WideWindowListsAll(rows: seq<Row>, cutoff: int)
    requires forall i :: 0 <= i < |rows| ==> rows[i].timing > cutoff
    ensures After(rows, cutoff) == rows
    decreases |rows|
  {
    if |rows| > 0 {
      WideWindowListsAll(rows[1..], cutoff);
      assert rows == [rows[0]] + rows[1..];
    }
  }
}
