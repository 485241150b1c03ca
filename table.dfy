/**
 * The dynamic-width table printer of internal/table/table.go.
 *
 * Text is a Dafny `string`: a sequence of Unicode scalar values, one per rune
 * of the Go string. Go's `len` counts the bytes of the UTF-8 encoding, which
 * is `ByteLen`; the `%-Ns` verb of fmt pads to N runes, which is the length of
 * the Dafny sequence. The two agree on ASCII text.
 *
 * The printer's writer is modelled as the sequence of `Fprintf` calls it
 * receives (`Write`); `Text` gives the characters each call writes.
 */
module Table {
  import opened Wrappers

  /** A column: its header text and the width it is currently rendered at. */
  datatype Column = Column(header: string, width: nat)

  /** The error `AddRow` returns when a row does not have one cell per column. */
  datatype ArityError = ColumnCountMismatch(expected: nat, got: nat)

  /**
   * One `Fprintf(writer, format, args...)` call of `Print`. The format is
   * the printer's `"%-W1s %-W2s ... %-Wns\n"`, represented by its widths.
   */
  datatype Write = Fprintf(format: seq<nat>, args: seq<string>)

  function Max(a: nat, b: nat): nat { if a < b then b else a }

  /** Number of bytes in the UTF-8 encoding of one character. */
  function CharBytes(c: char): (n: nat)
    ensures 1 <= n <= 4
  {
    if c as int < 0x80 then 1
    else if c as int < 0x800 then 2
    else if c as int < 0x1_0000 then 3
    else 4
  }

  /** Go's `len` of a string: the length of its UTF-8 encoding in bytes. */
  function ByteLen(s: string): (n: nat)
    ensures |s| <= n <= 4 * |s|
  {
    if s == [] then 0 else CharBytes(s[0]) + ByteLen(s[1..])
  }

  /** `strings.Repeat` of a one-character string. */
  function Repeat(c: char, n: nat): (r: string)
    ensures |r| == n
  {
    if n == 0 then [] else [c] + Repeat(c, n - 1)
  }

  /**
   * fmt's `%-Ns` verb: the text, then spaces up to `width` runes. Text that
   * is already as wide is emitted whole, never truncated.
   */
  function PadRight(s: string, width: nat): (r: string)
    ensures |r| == Max(|s|, width)
  {
    if |s| < width then s + Repeat(' ', width - |s|) else s
  }

  /** One `%-Ws` verb of the format with what follows it: a space, or the newline after the last verb. */
  function Field(cell: string, width: nat, last: bool): (r: string)
    ensures |r| == Max(|cell|, width) + 1
  {
    PadRight(cell, width) + (if last then "\n" else " ")
  }

  /** The fields of one write: each argument padded by its verb, the last one followed by the newline. */
  function Fields(format: seq<nat>, args: seq<string>): (r: seq<string>)
    requires |format| == |args|
    ensures |r| == |args|
  {
    seq(|args|, k requires 0 <= k < |args| => Field(args[k], format[k], k + 1 == |args|))
  }

  function Concat(parts: seq<string>): string
  {
    if parts == [] then [] else parts[0] + Concat(parts[1..])
  }

  /**
   * The characters one `Fprintf` writes: each argument padded to its verb's
   * width, the fields joined by single spaces (`strings.Join(parts, " ")`),
   * then the newline that ends the format.
   */
  function Text(w: Write): string
    requires |w.format| == |w.args|
  {
    if |w.args| == 0 then "\n" else Concat(Fields(w.format, w.args))
  }

  /** The rune offset where column `i` starts: each earlier column's width plus one separating space. */
  function ColumnStart(widths: seq<nat>, i: nat): nat
    requires i <= |widths|
  {
    if i == 0 then 0 else widths[0] + 1 + ColumnStart(widths[1..], i - 1)
  }

  function Widths(columns: seq<Column>): (r: seq<nat>)
    ensures |r| == |columns|
  {
    seq(|columns|, i requires 0 <= i < |columns| => columns[i].width)
  }

  function Headers(columns: seq<Column>): (r: seq<string>)
    ensures |r| == |columns|
  {
    seq(|columns|, i requires 0 <= i < |columns| => columns[i].header)
  }

  /** The separator cells: as many dashes as the header has BYTES, whatever the column width. */
  function Separators(columns: seq<Column>): (r: seq<string>)
    ensures |r| == |columns|
  {
    seq(|columns|, i requires 0 <= i < |columns| => Repeat('-', ByteLen(columns[i].header)))
  }

  predicate RowsHaveArity(rows: seq<seq<string>>, n: nat)
  {
    forall r :: r in rows ==> |r| == n
  }

  /** The writes for the data rows, in insertion order. */
  function RowWrites(format: seq<nat>, rows: seq<seq<string>>): seq<Write>
  {
    if rows == [] then []
    else RowWrites(format, rows[..|rows| - 1]) + [Fprintf(format, rows[|rows| - 1])]
  }

  /** Everything one call of `Print` writes, given the widths it has just padded. */
  function Render(columns: seq<Column>, rows: seq<seq<string>>): seq<Write>
  {
    [Fprintf(Widths(columns), Headers(columns)), Fprintf(Widths(columns), Separators(columns))]
      + RowWrites(Widths(columns), rows)
  }

  /** The cells of line `k` of a rendering: the headers, the separators, then row `k - 2`. */
  function LineCells(columns: seq<Column>, rows: seq<seq<string>>, k: nat): (r: seq<string>)
    requires RowsHaveArity(rows, |columns|) && k < |rows| + 2
    ensures |r| == |columns|
  {
    if k == 0 then Headers(columns)
    else if k == 1 then Separators(columns)
    else rows[k - 2]
  }

  /** The columns `New` creates: one per header, in order, as wide as the header's byte length. */
  function Initial(headers: seq<string>): (r: seq<Column>)
    ensures |r| == |headers|
  {
    seq(|headers|, i requires 0 <= i < |headers| => Column(headers[i], ByteLen(headers[i])))
  }

  /** The columns after `AddRow` accepts `values`: each width raised to its cell's byte length. */
  function Widened(columns: seq<Column>, values: seq<string>): (r: seq<Column>)
    requires |values| == |columns|
    ensures |r| == |columns|
  {
    seq(|columns|, i requires 0 <= i < |columns|
      => Column(columns[i].header, Max(columns[i].width, ByteLen(values[i]))))
  }

  /** The columns after `Print` pads them. */
  function Padded(columns: seq<Column>): (r: seq<Column>)
    ensures |r| == |columns|
  {
    seq(|columns|, i requires 0 <= i < |columns| => Column(columns[i].header, columns[i].width + 2))
  }

  /**
   * The printer's invariant: every row has one cell per column, and every
   * column is at least as wide (in bytes) as its header and each of its cells.
   */
  predicate Fits(columns: seq<Column>, rows: seq<seq<string>>)
  {
    RowsHaveArity(rows, |columns|)
    && (forall i :: 0 <= i < |columns| ==> ByteLen(columns[i].header) <= columns[i].width)
    && (forall r, i :: r in rows && 0 <= i < |r| && i < |columns| ==> ByteLen(r[i]) <= columns[i].width)
  }

  /** The columns a printer holds after `New(headers)` and `AddRow` of each row, with no `Print` in between. */
  function Built(headers: seq<string>, rows: seq<seq<string>>): (r: seq<Column>)
    requires RowsHaveArity(rows, |headers|)
    ensures |r| == |headers|
  {
    if rows == [] then Initial(headers)
    else Widened(Built(headers, rows[..|rows| - 1]), rows[|rows| - 1])
  }

  class Printer {
    var columns: seq<Column>
    var rows: seq<seq<string>>
    /** The writer: the writes it held before `New`, then every `Fprintf` of this printer. */
    var written: seq<Write>

    ghost predicate Valid()
      reads this
    {
      Fits(columns, rows)
    }

    constructor New(writer: seq<Write>, headers: seq<string>)
      ensures Valid()
      ensures columns == Initial(headers) && rows == [] && written == writer
    {
      var cols: seq<Column> := seq(|headers|, _ => Column("", 0));
      for i := 0 to |headers|
        invariant |cols| == |headers|
        invariant forall j :: 0 <= j < i ==> cols[j] == Column(headers[j], ByteLen(headers[j]))
      {
        cols := cols[i := Column(headers[i], ByteLen(headers[i]))];
      }
      columns := cols;
      rows := [];
      written := writer;
    }

    method AddRow(values: seq<string>) returns (err: Option<ArityError>)
      requires Valid()
      modifies this
      ensures Valid() && written == old(written)
      ensures |values| != |old(columns)| ==>
        err == Some(ColumnCountMismatch(|old(columns)|, |values|))
        && columns == old(columns) && rows == old(rows)
      ensures |values| == |old(columns)| ==>
        err == None && columns == Widened(old(columns), values) && rows == old(rows) + [values]
    {
      if |values| != |columns| {
        return Some(ColumnCountMismatch(|columns|, |values|));
      }
      var cols := columns;
      for i := 0 to |values|
        invariant |cols| == |values|
        invariant forall j :: 0 <= j < i ==> cols[j] == Column(columns[j].header, Max(columns[j].width, ByteLen(values[j])))
        invariant forall j :: i <= j < |values| ==> cols[j] == columns[j]
      {
        if ByteLen(values[i]) > cols[i].width {
          cols := cols[i := Column(cols[i].header, ByteLen(values[i]))];
        }
      }
      assert cols == Widened(columns, values);
      WidenedFits(columns, rows, values);
      columns := cols;
      rows := rows + [values];
      err := None;
    }

    method Print()
      requires Valid()
      modifies this
      ensures Valid() && rows == old(rows)
      ensures columns == Padded(old(columns))
      ensures written == old(written) + Render(columns, rows)
    {
      var cols := columns;
      for i := 0 to |cols|
        invariant |cols| == |columns|
        invariant forall j :: 0 <= j < i ==> cols[j] == Padded(columns)[j]
        invariant forall j :: i <= j < |cols| ==> cols[j] == columns[j]
      {
        cols := cols[i := Column(cols[i].header, cols[i].width + 2)];
      }
      PaddedFits(columns, rows);
      columns := cols;
      written := Emit(written, cols, rows);
    }

    /** The writing half of `Print`: the header line, the separator line, then one line per row. */
    static method Emit(writer: seq<Write>, cols: seq<Column>, rows: seq<seq<string>>) returns (out: seq<Write>)
      ensures out == writer + Render(cols, rows)
    {
      // the format string, represented by the width of each of its verbs
      var format: seq<nat> := seq(|cols|, _ => 0);
      for i := 0 to |cols|
        invariant |format| == |cols|
        invariant forall j :: 0 <= j < i ==> format[j] == cols[j].width
      {
        format := format[i := cols[i].width];
      }

      var headers: seq<string> := seq(|cols|, _ => "");
      var separators: seq<string> := seq(|cols|, _ => "");
      for i := 0 to |cols|
        invariant |headers| == |separators| == |cols|
        invariant forall j :: 0 <= j < i ==> headers[j] == cols[j].header
        invariant forall j :: 0 <= j < i ==> separators[j] == Repeat('-', ByteLen(cols[j].header))
      {
        headers := headers[i := cols[i].header];
        separators := separators[i := Repeat('-', ByteLen(cols[i].header))];
      }
      assert format == Widths(cols) && headers == Headers(cols) && separators == Separators(cols);

      out := writer + [Fprintf(format, headers), Fprintf(format, separators)];
      for k := 0 to |rows|
        invariant out == writer + [Fprintf(format, headers), Fprintf(format, separators)]
          + RowWrites(format, rows[..k])
      {
        assert rows[..k + 1][..k] == rows[..k];
        out := out + [Fprintf(format, rows[k])];
      }
      assert rows[..|rows|] == rows;
    }
  }

  lemma WidenedFits(columns: seq<Column>, rows: seq<seq<string>>, values: seq<string>)
    requires Fits(columns, rows) && |values| == |columns|
    ensures Fits(Widened(columns, values), rows + [values])
  {
    var w := Widened(columns, values);
    forall r, i | r in rows + [values] && 0 <= i < |r| && i < |w|
      ensures ByteLen(r[i]) <= w[i].width
    {
      if r in rows {
        assert ByteLen(r[i]) <= columns[i].width;
      }
    }
  }

  lemma PaddedFits(columns: seq<Column>, rows: seq<seq<string>>)
    requires Fits(columns, rows)
    ensures Fits(Padded(columns), rows)
  {
    var p := Padded(columns);
    forall r, i | r in rows && 0 <= i < |r| && i < |p|
      ensures ByteLen(r[i]) <= p[i].width
    {
      assert ByteLen(r[i]) <= columns[i].width;
    }
  }

  /** On ASCII text Go's byte length and the rune count coincide. */
  lemma {:induction false} ByteLenAscii(s: string)
    requires forall i :: 0 <= i < |s| ==> s[i] as int < 0x80
    ensures ByteLen(s) == |s|
  {
    if s != [] {
      ByteLenAscii(s[1..]);
    }
  }

  lemma {:induction false} RepeatAt(c: char, n: nat)
    ensures forall i :: 0 <= i < n ==> Repeat(c, n)[i] == c
  {
    if n > 0 {
      RepeatAt(c, n - 1);
    }
  }

  /** A padded field starts with the whole cell and continues with spaces only. */
  lemma PadRightShape(s: string, width: nat)
    ensures PadRight(s, width)[..|s|] == s
    ensures forall i :: |s| <= i < |PadRight(s, width)| ==> PadRight(s, width)[i] == ' '
  {
    if |s| < width {
      RepeatAt(' ', width - |s|);
    }
  }

  lemma {:induction false} ColumnStartStep(widths: seq<nat>, i: nat)
    requires i < |widths|
    ensures ColumnStart(widths, i + 1) == ColumnStart(widths, i) + widths[i] + 1
  {
    if i > 0 {
      ColumnStartStep(widths[1..], i - 1);
    }
  }

  /** Where part `i` of a concatenation starts: the total length of the parts before it. */
  function Offset(parts: seq<string>, i: nat): nat
    requires i <= |parts|
  {
    if i == 0 then 0 else |parts[0]| + Offset(parts[1..], i - 1)
  }

  lemma {:induction false} ConcatAt(parts: seq<string>, i: nat)
    requires i < |parts|
    ensures |Concat(parts)| == Offset(parts, |parts|)
    ensures Offset(parts, i) + |parts[i]| <= |Concat(parts)|
    ensures Concat(parts)[Offset(parts, i)..Offset(parts, i) + |parts[i]|] == parts[i]
  {
    var rest := Concat(parts[1..]);
    assert Concat(parts) == parts[0] + rest;
    if |parts| == 1 {
      assert rest == [];
    } else {
      ConcatAt(parts[1..], if i == 0 then 0 else i - 1);
      if i > 0 {
        assert parts[1..][i - 1] == parts[i];
        var c := Offset(parts[1..], i - 1);
        assert (parts[0] + rest)[|parts[0]| + c..|parts[0]| + c + |parts[i]|] == rest[c..c + |parts[i]|];
      }
    }
  }

  lemma {:induction false} OffsetLast(parts: seq<string>, i: nat)
    requires i < |parts|
    ensures Offset(parts, i + 1) == Offset(parts, i) + |parts[i]|
  {
    if i > 0 {
      OffsetLast(parts[1..], i - 1);
      assert parts[1..][i - 1] == parts[i];
    }
  }

  /** Every write is exactly one line: its format ends with the newline, and nothing after it. */
  lemma TextEndsLine(w: Write)
    requires |w.format| == |w.args|
    ensures |Text(w)| > 0 && Text(w)[|Text(w)| - 1] == '\n'
  {
    if |w.args| > 0 {
      var parts := Fields(w.format, w.args);
      var n := |parts|;
      FieldEnds(w.args[n - 1], w.format[n - 1], true);
      assert parts[n - 1] == Field(w.args[n - 1], w.format[n - 1], true);
      ConcatEnds(parts, '\n');
    }
  }

  /** A concatenation ends with the last character of its last part. */
  lemma ConcatEnds(parts: seq<string>, c: char)
    requires |parts| > 0 && |parts[|parts| - 1]| > 0
    requires parts[|parts| - 1][|parts[|parts| - 1]| - 1] == c
    ensures |Concat(parts)| > 0 && Concat(parts)[|Concat(parts)| - 1] == c
  {
    var n := |parts|;
    ConcatAt(parts, n - 1);
    OffsetLast(parts, n - 1);
    var line, last := Concat(parts), parts[n - 1];
    assert line[Offset(parts, n - 1)..|line|] == last;
    assert line[|line| - 1] == last[|last| - 1];
  }

  /** A field ends with the space that separates it from the next, or with the newline. */
  lemma FieldEnds(cell: string, width: nat, last: bool)
    ensures var f := Field(cell, width, last); f[|f| - 1] == if last then '\n' else ' '
  {
  }

  /** When part `j` is `widths[j] + 1` long, the parts start at the column starts. */
  lemma {:induction false} OffsetIsColumnStart(parts: seq<string>, widths: seq<nat>, i: nat)
    requires |parts| == |widths| && i <= |parts|
    requires forall j :: 0 <= j < |parts| ==> |parts[j]| == widths[j] + 1
    ensures Offset(parts, i) == ColumnStart(widths, i)
  {
    if i > 0 {
      OffsetIsColumnStart(parts[1..], widths[1..], i - 1);
    }
  }

  /**
   * The layout of a write whose arguments all fit: it is `ColumnStart(widths, n)`
   * runes long, and from `ColumnStart(widths, i)` on it holds argument `i`
   * padded to its width, then the single separating space, or the newline
   * after the last column.
   */
  lemma TextField(widths: seq<nat>, cells: seq<string>, i: nat)
    requires |widths| == |cells| && i < |cells|
    requires forall j :: 0 <= j < |cells| ==> |cells[j]| <= widths[j]
    ensures var line, start := Text(Fprintf(widths, cells)), ColumnStart(widths, i);
      |line| == ColumnStart(widths, |cells|)
      && start + widths[i] < |line|
      && line[start..start + widths[i] + 1] == Field(cells[i], widths[i], i + 1 == |cells|)
  {
    var fields := Fields(widths, cells);
    ConcatLayout(fields, widths, i);
    assert Text(Fprintf(widths, cells)) == Concat(fields);
  }

  /** A concatenation of parts `widths[j] + 1` long holds part `i` from `ColumnStart(widths, i)` on. */
  lemma ConcatLayout(parts: seq<string>, widths: seq<nat>, i: nat)
    requires |parts| == |widths| && i < |parts|
    requires forall j :: 0 <= j < |parts| ==> |parts[j]| == widths[j] + 1
    ensures var start := ColumnStart(widths, i);
      |Concat(parts)| == ColumnStart(widths, |parts|)
      && start + widths[i] < |Concat(parts)|
      && Concat(parts)[start..start + widths[i] + 1] == parts[i]
  {
    ConcatAt(parts, i);
    OffsetIsColumnStart(parts, widths, i);
    OffsetIsColumnStart(parts, widths, |parts|);
  }

  lemma {:induction false} RowWritesAt(format: seq<nat>, rows: seq<seq<string>>)
    ensures |RowWrites(format, rows)| == |rows|
    ensures forall k :: 0 <= k < |rows| ==> RowWrites(format, rows)[k] == Fprintf(format, rows[k])
  {
    if rows != [] {
      RowWritesAt(format, rows[..|rows| - 1]);
    }
  }

  /**
   * What one `Print` writes: exactly `|rows| + 2` lines, the header line,
   * the separator line, then the rows in insertion order, all with the same
   * format.
   */
  lemma RenderLines(columns: seq<Column>, rows: seq<seq<string>>)
    requires RowsHaveArity(rows, |columns|)
    ensures |Render(columns, rows)| == |rows| + 2
    ensures forall k :: 0 <= k < |rows| + 2 ==>
      Render(columns, rows)[k] == Fprintf(Widths(columns), LineCells(columns, rows, k))
  {
    RowWritesAt(Widths(columns), rows);
  }

  /**
   * Every line of a rendering of a printer's state has the same length, and
   * in each of them column `i` starts at the same rune: the rendered table is
   * aligned, every cell is printed whole (never truncated) and left-justified
   * in a field as wide as its column, and every line ends with a newline.
   */
  lemma RenderLayout(columns: seq<Column>, rows: seq<seq<string>>, k: nat, i: nat)
    requires Fits(columns, rows) && k < |rows| + 2 && i < |columns|
    ensures var widths, cells := Widths(columns), LineCells(columns, rows, k);
      var line, start := Text(Fprintf(widths, cells)), ColumnStart(widths, i);
      |line| == ColumnStart(widths, |columns|)
      && start + widths[i] < |line|
      && line[start..start + widths[i] + 1]
         == Field(cells[i], widths[i], i + 1 == |columns|)
  {
    LineCellsFit(columns, rows, k);
    RenderedLineLayout(columns, rows, k, i);

  }

  /** `RenderLayout` once every cell of line `k` is known to fit its column. */
  lemma RenderedLineLayout(columns: seq<Column>, rows: seq<seq<string>>, k: nat, i: nat)
    requires RowsHaveArity(rows, |columns|) && k < |rows| + 2 && i < |columns|
    requires forall j :: 0 <= j < |columns| ==> |LineCells(columns, rows, k)[j]| <= Widths(columns)[j]
    ensures var widths, cells := Widths(columns), LineCells(columns, rows, k);
      var line, start := Text(Fprintf(widths, cells)), ColumnStart(widths, i);
      |line| == ColumnStart(widths, |columns|)
      && start + widths[i] < |line|
      && line[start..start + widths[i] + 1]
         == Field(cells[i], widths[i], i + 1 == |columns|)
  {
    TextField(Widths(columns), LineCells(columns, rows, k), i);
  }

  /** Every cell of every line is at most as many runes long as its column is wide. */
  lemma LineCellsFit(columns: seq<Column>, rows: seq<seq<string>>, k: nat)
    requires Fits(columns, rows) && k < |rows| + 2
    ensures forall j :: 0 <= j < |columns| ==> |LineCells(columns, rows, k)[j]| <= Widths(columns)[j]
  {
    if k >= 2 {
      assert rows[k - 2] in rows;
    }
  }

  /** A line of a rendering is as long as the start of a column after the last. */
  lemma LineLength(columns: seq<Column>, rows: seq<seq<string>>, k: nat)
    requires Fits(columns, rows) && k < |rows| + 2 && |columns| > 0
    ensures |Text(Fprintf(Widths(columns), LineCells(columns, rows, k)))| == ColumnStart(Widths(columns), |columns|)
  {
    LineCellsFit(columns, rows, k);
    TextField(Widths(columns), LineCells(columns, rows, k), 0);
  }

  lemma {:induction false} ColumnStartPadded(widths: seq<nat>, padded: seq<nat>, i: nat)
    requires |padded| == |widths| && i <= |widths|
    requires forall j :: 0 <= j < |widths| ==> padded[j] == widths[j] + 2
    ensures ColumnStart(padded, i) == ColumnStart(widths, i) + 2 * i
  {
    if i > 0 {
      ColumnStartPadded(widths[1..], padded[1..], i - 1);
    }
  }

  /**
   * Rendering is not idempotent: `Print` pads the stored widths again on
   * every call, so each line a later `Print` writes is two runes per column
   * longer than the same line of the call before, and the output differs
   * as soon as there is a column.
   */
  lemma RepaddingWidensEveryLine(columns: seq<Column>, rows: seq<seq<string>>, k: nat)
    requires Fits(columns, rows) && k < |rows| + 2
    ensures |Render(columns, rows)| == |Render(Padded(columns), rows)| == |rows| + 2
    ensures var before, after := Render(columns, rows)[k], Render(Padded(columns), rows)[k];
      |before.format| == |before.args| && |after.format| == |after.args|
      && |Text(after)| == |Text(before)| + 2 * |columns|
    ensures |columns| > 0 ==> Render(Padded(columns), rows) != Render(columns, rows)
  {
    PaddedFits(columns, rows);
    RenderLines(columns, rows);
    RenderLines(Padded(columns), rows);
    if |columns| > 0 {
      LineLength(columns, rows, k);
      LineLength(Padded(columns), rows, k);
      ColumnStartPadded(Widths(columns), Widths(Padded(columns)), |columns|);
    }
  }

  /**
   * Without a `Print` in between, every column is exactly as wide as the
   * longest (in bytes) of its header and its cells.
   */
  lemma {:induction false} BuiltWidthIsLongest(headers: seq<string>, rows: seq<seq<string>>, i: nat)
    requires RowsHaveArity(rows, |headers|) && i < |headers|
    ensures Built(headers, rows)[i].header == headers[i]
    ensures ByteLen(headers[i]) <= Built(headers, rows)[i].width
    ensures forall r :: r in rows ==> ByteLen(r[i]) <= Built(headers, rows)[i].width
    ensures Built(headers, rows)[i].width == ByteLen(headers[i])
      || exists r :: r in rows && Built(headers, rows)[i].width == ByteLen(r[i])
  {
    if rows != [] {
      var init, last := rows[..|rows| - 1], rows[|rows| - 1];
      assert rows == init + [last];
      BuiltWidthIsLongest(headers, init, i);
      var w := Built(headers, init)[i].width;
      if w < ByteLen(last[i]) {
        assert last in rows;
      } else if w != ByteLen(headers[i]) {
        var r :| r in init && w == ByteLen(r[i]);
        assert r in rows;
      }
    }
  }
}
