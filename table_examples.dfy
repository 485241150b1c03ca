/**
 * The two scenarios of internal/table/table_test.go, stated as verified
 * methods on the model of the printer.
 */
module TableExamples {
  import opened Wrappers
  import opened Table

  /**
   * Five headers, two rows, one `Print`: the writer receives four lines,
   * the header line, the separator line and one line per row.
   */
  method FiveColumnTable() returns (written: seq<Write>)
    ensures |written| == 4
  {
    var headers := ["NAME", "CONFIGURED", "RUNNING", "DISK_SIZE", "RABBITMQ_VERSION"];
    var first := ["dev-calm-olive-reindeer-01", "Yes", "Yes", "15 GB", "4.2.1"];
    var second := ["short-name", "No", "Yes", "20 GB", "3.8.0"];
    var p := new Printer.New([], headers);
    assert |p.columns| == 5;
    var e1 := p.AddRow(first);
    assert |p.columns| == 5 && p.rows == [first];
    var e2 := p.AddRow(second);
    assert p.rows == [first, second];
    p.Print();
    RenderLines(p.columns, p.rows);
    written := p.written;
  }

  /** A row of three cells for a printer of two columns is refused, and the printer is left as it was. */
  method ColumnMismatch() returns (err: Option<ArityError>, rows: seq<seq<string>>)
    ensures err == Some(ColumnCountMismatch(2, 3))
    ensures rows == []
  {
    var p := new Printer.New([], ["COL1", "COL2"]);
    err := p.AddRow(["value1", "value2", "value3"]);
    rows := p.rows;
  }
}
