/** An HTML table element and its serialisation into a string stream. */
module HtmlTable {
  import StringViews

  /** The growing text of a `std::stringstream`. */
  class StringStream {
    var text: string

    constructor ()
      ensures text == ""
    {
      text := "";
    }

    /** `ss << s` */
    method Write(s: string)
      modifies this
      ensures text == old(text) + s
    {
      text := text + s;
    }
  }

  /** `std::string(n, '\t')`: `n` tab characters. */
  function Tabs(n: nat): (t: string)
    ensures |t| == n
  {
    if n == 0 then "" else Tabs(n - 1) + "\t"
  }

  /** The indentation holds tab characters only. */
  lemma {:induction false} TabsOnly(n: nat)
    ensures forall i :: 0 <= i < n ==> Tabs(n)[i] == '\t'
  {
    if n > 0 {
      TabsOnly(n - 1);
    }
  }

  /** Header cells are `th` elements, data cells `td` elements. */
  datatype CellKind = HeadCell | DataCell

  function OpenTag(kind: CellKind): string
  {
    match kind
    case HeadCell => "<th>"
    case DataCell => "<td>"
  }

  function CloseTag(kind: CellKind): string
  {
    match kind
    case HeadCell => "</th>"
    case DataCell => "</td>"
  }

  /** One table row as it is rendered: the kind of its cells and the cells
      that fit in the column limit. */
  datatype RowBlock = RowBlock(kind: CellKind, cells: seq<string>)

  /** The cells of `row` that are rendered: the first `min(columns, |row|)`. */
  function Shown(row: seq<string>, columns: nat): (cells: seq<string>)
    ensures |cells| == StringViews.Min(columns, |row|) && cells == row[..|cells|]
  {
    row[..StringViews.Min(columns, |row|)]
  }

  /** The one-block header row, present only when the header is non-empty. */
  function HeadBlocks(head: seq<string>, columns: nat): seq<RowBlock>
  {
    if head == [] then [] else [RowBlock(HeadCell, Shown(head, columns))]
  }

  /** One `td` block per data row, in the order of the rows. */
  function DataBlocks(data: seq<seq<string>>, columns: nat): (blocks: seq<RowBlock>)
    ensures |blocks| == |data|
    ensures forall j :: 0 <= j < |data| ==> blocks[j] == RowBlock(DataCell, Shown(data[j], columns))
  {
    if data == [] then []
    else DataBlocks(data[..|data| - 1], columns) + [RowBlock(DataCell, Shown(data[|data| - 1], columns))]
  }

  /** The row blocks of a table: the header row, if any, then the data rows. */
  function Blocks(head: seq<string>, data: seq<seq<string>>, columns: nat): seq<RowBlock>
  {
    HeadBlocks(head, columns) + DataBlocks(data, columns)
  }

  /** The lines that open and close the table and each row. */
  function TableOpen(prefix: string): string { prefix + "<table>\n" }
  function TableClose(prefix: string): string { prefix + "</table>\n" }
  function RowOpen(prefix: string): string { prefix + "\t<tr>\n" }
  function RowClose(prefix: string): string { prefix + "\t</tr>\n" }

  /** A cell line: indentation, two tabs, the cell between its tags. */
  function CellLine(prefix: string, kind: CellKind, cell: string): string
  {
    prefix + "\t\t" + OpenTag(kind) + cell + CloseTag(kind) + "\n"
  }

  function CellLines(prefix: string, kind: CellKind, cells: seq<string>): string
  {
    if cells == [] then ""
    else CellLines(prefix, kind, cells[..|cells| - 1]) + CellLine(prefix, kind, cells[|cells| - 1])
  }

  /** A row: its opening line, its cell lines, its closing line. */
  function RowText(prefix: string, block: RowBlock): string
  {
    RowOpen(prefix) + CellLines(prefix, block.kind, block.cells) + RowClose(prefix)
  }

  function RowsText(prefix: string, blocks: seq<RowBlock>): string
  {
    if blocks == [] then ""
    else RowsText(prefix, blocks[..|blocks| - 1]) + RowText(prefix, blocks[|blocks| - 1])
  }

  /** What `Dump(ss, depth)` writes. */
  function Rendered(head: seq<string>, data: seq<seq<string>>, columns: nat, depth: nat): string
  {
    var prefix := Tabs(depth);
    TableOpen(prefix) + RowsText(prefix, Blocks(head, data, columns)) + TableClose(prefix)
  }

  /** Rendering a run of rows is rendering its two halves one after the other. */
  lemma {:induction false} RowsTextJoin(prefix: string, a: seq<RowBlock>, b: seq<RowBlock>)
    ensures RowsText(prefix, a + b) == RowsText(prefix, a) + RowsText(prefix, b)
    decreases |b|
  {
    if b != [] {
      var init := b[..|b| - 1];
      assert (a + b)[..|a + b| - 1] == a + init;
      RowsTextJoin(prefix, a, init);
    } else {
      assert a + b == a;
    }
  }

  lemma AppendAssociative(a: string, b: string, c: string)
    ensures a + b + c == a + (b + c)
  {
  }

  /** Rendering one more data row appends that row's text. */
  lemma DataRowStep(prefix: string, first: seq<RowBlock>, data: seq<seq<string>>, columns: nat, j: nat)
    requires j < |data|
    ensures RowsText(prefix, first + DataBlocks(data[..j + 1], columns))
            == RowsText(prefix, first + DataBlocks(data[..j], columns))
               + RowText(prefix, RowBlock(DataCell, Shown(data[j], columns)))
  {
    assert data[..j + 1][..j] == data[..j];
    var before := first + DataBlocks(data[..j], columns);
    var after := first + DataBlocks(data[..j + 1], columns);
    assert after == before + [RowBlock(DataCell, Shown(data[j], columns))];
    assert after[..|after| - 1] == before;
  }

  /** The output opens with `<table>` and closes with `</table>`, each on its
      own line indented by `depth` tabs. */
  lemma TableFrame(head: seq<string>, data: seq<seq<string>>, columns: nat, depth: nat)
    ensures var out := Rendered(head, data, columns, depth);
            var open := TableOpen(Tabs(depth));
            var close := TableClose(Tabs(depth));
            |out| >= |open| + |close| && out[..|open|] == open && out[|out| - |close|..] == close
  {
    var prefix := Tabs(depth);
    var middle := RowsText(prefix, Blocks(head, data, columns));
    var open := TableOpen(prefix);
    var close := TableClose(prefix);
    assert (open + middle + close)[..|open|] == open;
    assert (open + middle + close)[|open + middle|..] == close;
  }

  /** The table is the optional header row followed by one row per data row,
      in the order of the data. */
  lemma TableRows(head: seq<string>, data: seq<seq<string>>, columns: nat, depth: nat)
    ensures var prefix := Tabs(depth);
            Rendered(head, data, columns, depth)
            == TableOpen(prefix)
               + (if head == [] then "" else RowText(prefix, RowBlock(HeadCell, Shown(head, columns))))
               + RowsText(prefix, DataBlocks(data, columns)) + TableClose(prefix)
  {
    var prefix := Tabs(depth);
    var hb := HeadBlocks(head, columns);
    var headText := if head == [] then "" else RowText(prefix, RowBlock(HeadCell, Shown(head, columns)));
    var dataText := RowsText(prefix, DataBlocks(data, columns));
    RowsTextJoin(prefix, hb, DataBlocks(data, columns));
    if head != [] {
      assert hb[..0] == [];
      assert RowsText(prefix, hb) == RowsText(prefix, []) + RowText(prefix, hb[0]);
    }
    assert RowsText(prefix, hb) == headText;
    AppendAssociative(TableOpen(prefix), headText, dataText);
  }

  /** A `th` row exists exactly when the header is non-empty; besides it
      there is one row per data row. */
  lemma HeadRowIffHead(head: seq<string>, data: seq<seq<string>>, columns: nat)
    ensures var blocks := Blocks(head, data, columns);
            |blocks| == |data| + (if head == [] then 0 else 1)
            && ((exists k :: 0 <= k < |blocks| && blocks[k].kind == HeadCell) <==> head != [])
  {
    var blocks := Blocks(head, data, columns);
    if head != [] {
      assert blocks[0].kind == HeadCell;
    } else {
      assert blocks == DataBlocks(data, columns);
    }
  }

  class Table {
    var head: seq<string>
    var data: seq<seq<string>>
    var columns: nat

    constructor (columns: nat)
      ensures head == [] && data == [] && this.columns == columns
    {
      head := [];
      data := [];
      this.columns := columns;
    }

    /** `Dump(ss, depth)`: appends the rendered table to `ss`. */
    method Dump(ss: StringStream, depth: nat)
      modifies ss
      ensures ss.text == old(ss.text) + Rendered(head, data, columns, depth)
    {
      ghost var initial := ss.text;
      var prefix := Tabs(depth);
      ss.Write(TableOpen(prefix));
      ghost var start := ss.text;
      ghost var first := HeadBlocks(head, columns);

      if head != [] {
        DumpRow(ss, prefix, HeadCell, head);
        assert first[..0] == [];
        assert RowsText(prefix, first) == RowsText(prefix, []) + RowText(prefix, first[0]);
      }
      assert ss.text == start + RowsText(prefix, first);
      assert data[..0] == [] && first + DataBlocks([], columns) == first;

      var j := 0;
      while j < |data|
        invariant 0 <= j <= |data|
        invariant ss.text == start + RowsText(prefix, first + DataBlocks(data[..j], columns))
      {
        ghost var before := RowsText(prefix, first + DataBlocks(data[..j], columns));
        ghost var row := RowText(prefix, RowBlock(DataCell, Shown(data[j], columns)));
        DumpRow(ss, prefix, DataCell, data[j]);
        DataRowStep(prefix, first, data, columns, j);
        AppendAssociative(start, before, row);
        j := j + 1;
      }
      assert data[..j] == data;
      ghost var middle := RowsText(prefix, Blocks(head, data, columns));
      assert ss.text == start + middle;
      ss.Write(TableClose(prefix));
      AppendAssociative(initial, TableOpen(prefix), middle);
      AppendAssociative(initial, TableOpen(prefix) + middle, TableClose(prefix));
    }

    /** Writes one row: its opening line, a line per shown cell, its closing line. */
    method DumpRow(ss: StringStream, prefix: string, kind: CellKind, row: seq<string>)
      modifies ss
      ensures ss.text == old(ss.text) + RowText(prefix, RowBlock(kind, Shown(row, columns)))
    {
      ghost var initial := ss.text;
      ss.Write(RowOpen(prefix));
      assert row[..0] == [];
      var i := 0;
      while i < columns && i < |row|
        invariant 0 <= i <= StringViews.Min(columns, |row|)
        invariant ss.text == initial + RowOpen(prefix) + CellLines(prefix, kind, row[..i])
      {
        ghost var cells := CellLines(prefix, kind, row[..i]);
        ss.Write(CellLine(prefix, kind, row[i]));
        assert row[..i + 1][..i] == row[..i];
        AppendAssociative(initial + RowOpen(prefix), cells, CellLine(prefix, kind, row[i]));
        i := i + 1;
      }
      ghost var cells := CellLines(prefix, kind, row[..i]);
      assert row[..i] == Shown(row, columns);
      ss.Write(RowClose(prefix));
      AppendAssociative(initial, RowOpen(prefix), cells);
      AppendAssociative(initial, RowOpen(prefix) + cells, RowClose(prefix));
    }
  }
}
