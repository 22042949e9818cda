/** The table layers the importer works on. Their code is not part of this
    model; they are modelled by the behaviour the importer relies on:
    a basic table of text rows, a view that resolves header names to
    indexes, and the writable transaction table that rows are added to. */
module DataTable {

  /** The canonical transaction columns every format maps into. */
  datatype Column =
    | TransactionTime
    | TransactionType
    | Category
    | SubCategory
    | AccountName
    | AccountCurrency
    | Amount
    | RelatedAccountName
    | RelatedAccountCurrency
    | RelatedAmount
    | Description
    | Member
    | Tags

  type RowData = map<Column, string>

  /** Reading a Go map: an absent key reads as the empty string. */
  function Lookup(data: RowData, c: Column): string
  {
    if c in data then data[c] else ""
  }

  /** Rows of text cells; with hasHeaderRow, the first row is the header. */
  datatype BasicTable = BasicTable(lines: seq<seq<string>>, hasHeaderRow: bool)

  /** Header name to column index; a name given twice resolves to its last
      position, as a map filled in header order does. */
  function ColumnIndex(header: seq<string>): (m: map<string, nat>)
    ensures forall name :: name in m <==> name in header
    ensures forall name :: name in m ==> m[name] < |header| && header[m[name]] == name
  {
    if header == [] then map[]
    else
      var n := |header| - 1;
      ColumnIndex(header[..n])[header[n] := n]
  }

  /** A name the header holds twice resolves to its last position. */
  lemma {:induction false} ColumnIndexLastWins(header: seq<string>, name: string, j: nat)
    requires name in ColumnIndex(header) && ColumnIndex(header)[name] < j < |header|
    ensures header[j] != name
  {
    var n := |header| - 1;
    if header[n] != name && j < n {
      assert header[..n][j] == header[j];
      ColumnIndexLastWins(header[..n], name, j);
    }
  }

  /** A view of a table by column name: the header row and the data rows. */
  datatype CommonTable = CommonTable(header: seq<string>, dataRows: seq<seq<string>>)
  {
    predicate HasColumn(name: string) {
      name in ColumnIndex(header)
    }

    function HeaderColumnCount(): nat {
      |header|
    }

    /** The row has a cell under the named header column. */
    predicate HasData(cells: seq<string>, name: string) {
      name in ColumnIndex(header) && ColumnIndex(header)[name] < |cells|
    }

    function GetData(cells: seq<string>, name: string): string
    {
      if HasData(cells, name) then cells[ColumnIndex(header)[name]] else ""
    }
  }

  /** A common table over a basic one: its header row is the first line when
      the basic table declares one. */
  function CommonTableOf(t: BasicTable): CommonTable
  {
    if t.hasHeaderRow && |t.lines| > 0 then CommonTable(t.lines[0], t.lines[1..])
    else CommonTable([], t.lines)
  }

  /** Once a row is known to be at least as long as the header, every header
      column has data in it. */
  lemma FullRowHasEveryColumn(view: CommonTable, cells: seq<string>, name: string)
    requires |cells| >= view.HeaderColumnCount()
    ensures view.HasData(cells, name) <==> view.HasColumn(name)
  {
  }

  /** The writable transaction table: a fixed list of columns and the rows
      added so far, in order. */
  class TransactionDataTable {
    const columns: seq<Column>
    var rows: seq<RowData>

    constructor (columns: seq<Column>)
      ensures this.columns == columns && rows == []
    {
      this.columns := columns;
      rows := [];
    }

    method Add(data: RowData)
      modifies this
      ensures rows == old(rows) + [data]
    {
      rows := rows + [data];
    }
  }
}
