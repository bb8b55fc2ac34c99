/** `format_db_data` of db_stuffs.py: the plain-text report a GET returns. */
module Report {
  import opened Text
  import opened Numbers
  import opened Store

  const NoData: string := "NO DATA FOUND IN THE DB"
  const Header: string := "GROUP, SENSOR, DISTANCE, TIMESTAMP"

  /** The report line of one row: `group, sensor, distance, timestamp`. */
  function RowLine(group: string, row: Row): (r: string)
    ensures |group| + 2 <= |r| && r[..|group| + 2] == group + ", "
  {
    group + ", " + row.sensor + ", " + Render(row.distance) + ", " + ShowInt(row.timing)
  }

  /** The report line of every row, in row order. */
  function RowLines(group: string, rows: seq<Row>): (lines: seq<string>)
    ensures |lines| == |rows|
  {
    seq(|rows|, i requires 0 <= i < |rows| => RowLine(group, rows[i]))
  }

  /** `format_db_data(db_data, group_id)`. */
  function FormatDbData(rows: seq<Row>, group: string): (text: string)
    ensures |rows| == 0 <==> text == NoData
    ensures |rows| > 0 ==> |Header| <= |text| && text[..|Header|] == Header
  {
    if |rows| == 0 then NoData
    else
      var lines := [Header] + RowLines(group, rows);
      assert Join(lines, '\n')[..|Header|] == Header by {
        assert lines[1..] == RowLines(group, rows);
        assert Join(lines, '\n') == Header + ['\n'] + Join(lines[1..], '\n');
      }
      assert Header[0] != NoData[0];
      Join(lines, '\n')
  }

  /** A single row is reported as the header, a line break and its row line. */
  lemma SingleRowReport(row: Row, group: string)
    ensures FormatDbData([row], group) == Header + "\n" + RowLine(group, row)
  {
    var lines := [Header] + RowLines(group, [row]);
    assert lines == [Header, RowLine(group, row)];
    assert Join(lines[1..], '\n') == RowLine(group, row);
  }

  /** A row line has no line break when its group and sensor have none. */
  lemma RowLinePlain(group: string, row: Row)
    requires '\n' !in group && '\n' !in row.sensor
    ensures '\n' !in RowLine(group, row)
  {
    RenderedNumbersArePlain(row.distance, row.timing);
    assert '\n' !in ", ";
  }

  /** Whenever the group and every row's sensor are free of line breaks, a non-empty
      report is the header followed by exactly one line per row, in row order. */
  lemma ReportLines(rows: seq<Row>, group: string)
    requires |rows| > 0
    requires '\n' !in group
    requires forall i :: 0 <= i < |rows| ==> '\n' !in rows[i].sensor
    ensures Split(FormatDbData(rows, group), '\n') == [Header] + RowLines(group, rows)
    ensures |Split(FormatDbData(rows, group), '\n')| == |rows| + 1
  {
    var lines := [Header] + RowLines(group, rows);
    RowLinesPlain(rows, group);
    assert '\n' !in Header;
    forall i | 0 <= i < |lines| ensures '\n' !in lines[i] {
      if i > 0 {
        assert lines[i] == RowLines(group, rows)[i - 1];
      }
    }
    SplitJoin(lines, '\n');
  }

  /** No row line of a report holds a line break of its own. */
  lemma RowLinesPlain(rows: seq<Row>, group: string)
    requires '\n' !in group
    requires forall i :: 0 <= i < |rows| ==> '\n' !in rows[i].sensor
    ensures forall i :: 0 <= i < |rows| ==> '\n' !in RowLines(group, rows)[i]
  {
    forall i | 0 <= i < |rows| ensures '\n' !in RowLines(group, rows)[i] {
      RowLinePlain(group, rows[i]);
    }
  }
}
