/** Worked examples: one Qianji export line per outcome of the row loop. */
module Scenarios {
  import opened Errs
  import opened DataTable
  import opened RowParser
  import opened Importer

  /** A header whose names all differ, as they do in a Qianji export. */
  const SampleHeader: seq<string> := ["时间", "类型", "分类", "二级分类", "账户", "币种", "金额", "备注"]

  /** A name no later header position repeats resolves to its own position. */
  lemma IndexOfLastOccurrence(header: seq<string>, j: nat)
    requires j < |header|
    requires forall k :: j < k < |header| ==> header[k] != header[j]
    ensures ColumnIndex(header)[header[j]] == j
  {
    var i := ColumnIndex(header)[header[j]];
    if i < j {
      ColumnIndexLastWins(header, header[j], j);
    }
  }

  lemma SampleHeaderIndex()
    ensures forall j :: 0 <= j < |SampleHeader| ==> ColumnIndex(SampleHeader)[SampleHeader[j]] == j
  {
    var h := SampleHeader;
    assert h[0][0] == '时' && h[1][0] == '类' && h[2][0] == '分' && h[3][0] == '二';
    assert h[4][0] == '账' && h[5][0] == '币' && h[6][0] == '金' && h[7][0] == '备';
    forall j | 0 <= j < |h| ensures ColumnIndex(h)[h[j]] == j {
      IndexOfLastOccurrence(h, j);
    }
  }

  /** A mapped column of a full sample line reads the cell at its header position. */
  lemma SampleField(view: CommonTable, cells: seq<string>, c: Column, j: nat)
    requires view.header == SampleHeader && |cells| == |SampleHeader|
    requires j < |SampleHeader| && c in ColumnNameMapping && ColumnNameMapping[c] == SampleHeader[j]
    ensures Lookup(RowFields(view, cells), c) == cells[j]
  {
    SampleHeaderIndex();
    assert view.HasData(cells, ColumnNameMapping[c]);
  }

  const ExpenseLine: seq<string> := ["2024-01-01", "支出", "饮食", "午餐", "招商银行", "CNY", "-35", ""]
  const TransferLine: seq<string> := ["2024-01-01", "转账", "", "", "招商银行", "CNY", "-35", ""]
  const ShortLine: seq<string> := ["2024-01-01", "支出", "饮食", "午餐", "招商银行"]

  const ExpenseView := CommonTable(SampleHeader, [ExpenseLine])

  /** The sample header passes the required-column check. */
  lemma SampleHeaderAccepted(view: CommonTable)
    requires view.header == SampleHeader
    ensures HasRequiredColumns(view)
  {
    var h := SampleHeader;
    assert h[0] in h && h[1] in h && h[3] in h && h[4] in h && h[6] in h;
  }

  lemma ExpenseLineType()
    ensures Lookup(RowFields(ExpenseView, ExpenseLine), TransactionType) == "支出"
  {
    SampleField(ExpenseView, ExpenseLine, TransactionType, 1);
  }

  lemma ExpenseLineAmount()
    ensures Lookup(RowFields(ExpenseView, ExpenseLine), Amount) == "-35"
  {
    SampleField(ExpenseView, ExpenseLine, Amount, 6);
  }

  lemma ExpenseLineTime()
    ensures Lookup(RowFields(ExpenseView, ExpenseLine), TransactionTime) == "2024-01-01"
  {
    SampleField(ExpenseView, ExpenseLine, TransactionTime, 0);
  }

  /** An expense line with every optional column: accepted as one field map,
      and its bare date gains a midnight time when the row is parsed. */
  lemma ExpenseLineScenario()
    ensures var built := BuildRows(ExpenseView, ExpenseView.dataRows);
      && HasRequiredColumns(ExpenseView)
      && built.Success? && |built.value| == 1
      && Lookup(built.value[0], TransactionType) == "支出"
      && Lookup(built.value[0], Amount) == "-35"
      && Lookup(built.value[0], TransactionTime) == "2024-01-01"
      && LongDateTime(LayoutFormats(), Lookup(built.value[0], TransactionTime)) == "2024-01-01 00:00:00"
  {
    SampleHeaderAccepted(ExpenseView);
    ExpenseLineType();
    ExpenseLineAmount();
    ExpenseLineTime();
    RowOutcomeType(ExpenseView, ExpenseLine);
    BuildRowsSpec(ExpenseView, ExpenseView.dataRows);
    LayoutBareDate();
  }

  /** A line with fewer cells than the header fails on its length. */
  lemma ShortLineScenario()
    ensures var view := CommonTable(SampleHeader, [ShortLine]);
      BuildRows(view, view.dataRows) == Failure(ErrFewerFieldsInDataRowThanInHeaderRow)
  {
    var view := CommonTable(SampleHeader, [ShortLine]);
    ShortRowFailsFirst(view, ShortLine);
    BuildRowsSpec(view, view.dataRows);
  }

  /** A transfer line is not an accepted type: the whole import fails. */
  lemma TransferLineScenario()
    ensures var view := CommonTable(SampleHeader, [TransferLine]);
      BuildRows(view, view.dataRows) == Failure(ErrTransactionTypeInvalid)
  {
    var view := CommonTable(SampleHeader, [TransferLine]);
    SampleField(view, TransferLine, TransactionType, 1);
    var t := Lookup(RowFields(view, TransferLine), TransactionType);
    assert t[0] == '转';
    RowOutcomeType(view, TransferLine);
    BuildRowsSpec(view, view.dataRows);
  }
}
