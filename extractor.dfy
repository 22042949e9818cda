/** The header-synthesising extractor of the Qianji app export: every cell of
    every raw row is trimmed of spaces and the rows are re-emitted with the
    first one as header. */
module Extractor {
  import opened Errs
  import opened Text
  import opened DataTable

  function TrimCells(cells: seq<string>): (r: seq<string>)
    ensures |r| == |cells|
    ensures forall j :: 0 <= j < |cells| ==> r[j] == Trim(cells[j])
  {
    seq(|cells|, j requires 0 <= j < |cells| => Trim(cells[j]))
  }

  function TrimLines(lines: seq<seq<string>>): (r: seq<seq<string>>)
    ensures |r| == |lines|
    ensures forall i :: 0 <= i < |lines| ==> r[i] == TrimCells(lines[i])
  {
    seq(|lines|, i requires 0 <= i < |lines| => TrimCells(lines[i]))
  }

  /** Reads every row, trims every cell, and fails when fewer than two rows
      (a header and one data row) are available. */
  method CreateBasicDataTable(original: seq<seq<string>>) returns (r: Result<BasicTable>)
    ensures r.Failure? <==> |original| < 2
    ensures r.Failure? ==> r.error == ErrNotFoundTransactionDataInFile
    ensures r.Success? ==> r.value.hasHeaderRow && r.value.lines == TrimLines(original)
    ensures r.Success? ==> |r.value.lines| == |original|
    ensures r.Success? ==> forall i :: 0 <= i < |original| ==> |r.value.lines[i]| == |original[i]|
    ensures r.Success? ==> forall i, j :: 0 <= i < |original| && 0 <= j < |original[i]| ==>
      r.value.lines[i][j] == Trim(original[i][j]) && NoEdgeSpace(r.value.lines[i][j])
  {
    var allOriginalLines: seq<seq<string>> := [];
    var k := 0;
    while k < |original|
      invariant 0 <= k <= |original|
      invariant allOriginalLines == TrimLines(original[..k])
    {
      var row := original[k];
      var items := new string[|row|];
      for i := 0 to |row|
        invariant forall j :: 0 <= j < i ==> items[j] == Trim(row[j])
      {
        items[i] := Trim(row[i]);
      }
      assert items[..] == TrimCells(row);
      assert original[..k + 1] == original[..k] + [row];
      allOriginalLines := allOriginalLines + [items[..]];
      k := k + 1;
    }
    assert original[..k] == original;
    if |allOriginalLines| < 2 {
      return Failure(ErrNotFoundTransactionDataInFile);
    }
    forall i, j | 0 <= i < |original| && 0 <= j < |original[i]|
      ensures NoEdgeSpace(Trim(original[i][j]))
    {
      var p, q := TrimSplit(original[i][j]);
    }
    r := Success(BasicTable(allOriginalLines, true));
  }
}
