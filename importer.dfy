/** The Qianji app CSV importer: the required-header check, the output schema,
    the row loop that fills the transaction table, the unmatched-transfer gate
    and the related-id joiner used for its diagnostic. */
module Importer {
  import opened Errs
  import opened Text
  import opened DataTable
  import opened Extractor
  import opened RowParser

  const TimeColumnName := "时间"
  const TypeColumnName := "类型"
  const CategoryColumnName := "分类"
  const SubCategoryColumnName := "二级分类"
  const AccountNameColumnName := "账户"
  const AccountCurrencyColumnName := "币种"
  const AmountColumnName := "金额"
  const DescriptionColumnName := "备注"
  const MemberColumnName := "记账者"
  const IncomeText := "收入"
  const ExpenseText := "支出"

  /** Canonical column to the Qianji header text it is copied from. */
  const ColumnNameMapping: map<Column, string> := map[
    TransactionTime := TimeColumnName,
    TransactionType := TypeColumnName,
    Category := CategoryColumnName,
    SubCategory := SubCategoryColumnName,
    AccountName := AccountNameColumnName,
    AccountCurrency := AccountCurrencyColumnName,
    Amount := AmountColumnName,
    Description := DescriptionColumnName,
    Member := MemberColumnName]

  const RequiredColumnNames: seq<string> :=
    [TimeColumnName, TypeColumnName, SubCategoryColumnName, AccountNameColumnName, AmountColumnName]

  predicate HasRequiredColumns(view: CommonTable) {
    && view.HasColumn(TimeColumnName)
    && view.HasColumn(TypeColumnName)
    && view.HasColumn(SubCategoryColumnName)
    && view.HasColumn(AccountNameColumnName)
    && view.HasColumn(AmountColumnName)
  }

  /** The header check passes exactly when every required name is in the
      header row. */
  lemma RequiredColumnsExactly(view: CommonTable)
    ensures HasRequiredColumns(view) <==> forall name :: name in RequiredColumnNames ==> name in view.header
  {
  }

  /** Category, currency, description and member columns are not required. */
  lemma OptionalColumnsNotRequired(rows: seq<seq<string>>)
    ensures HasRequiredColumns(CommonTable(RequiredColumnNames, rows))
    ensures CategoryColumnName !in RequiredColumnNames && AccountCurrencyColumnName !in RequiredColumnNames
    ensures DescriptionColumnName !in RequiredColumnNames && MemberColumnName !in RequiredColumnNames
  {
    var h := RequiredColumnNames;
    assert h[0] == TimeColumnName && h[1] == TypeColumnName && h[2] == SubCategoryColumnName;
    assert h[3] == AccountNameColumnName && h[4] == AmountColumnName;
  }

  // ---------------------------------------------------------------- schema

  /** Which optional source columns the header holds. */
  datatype Presence = Presence(category: bool, currency: bool, description: bool, member: bool)

  function PresenceOf(view: CommonTable): Presence
  {
    Presence(view.HasColumn(CategoryColumnName), view.HasColumn(AccountCurrencyColumnName),
             view.HasColumn(DescriptionColumnName), view.HasColumn(MemberColumnName))
  }

  /** The position of a column in the order the importer declares them;
      tags come last and are never declared. */
  function Rank(c: Column): nat {
    match c
    case TransactionType => 0
    case TransactionTime => 1
    case Category => 2
    case SubCategory => 3
    case AccountName => 4
    case AccountCurrency => 5
    case Amount => 6
    case RelatedAccountName => 7
    case RelatedAccountCurrency => 8
    case RelatedAmount => 9
    case Description => 10
    case Member => 11
    case Tags => 12
  }

  const DeclarableColumnCount: nat := 12

  function ColumnAt(i: nat): (c: Column)
    requires i < DeclarableColumnCount
    ensures Rank(c) == i
  {
    if i == 0 then TransactionType else if i == 1 then TransactionTime
    else if i == 2 then Category else if i == 3 then SubCategory
    else if i == 4 then AccountName else if i == 5 then AccountCurrency
    else if i == 6 then Amount else if i == 7 then RelatedAccountName
    else if i == 8 then RelatedAccountCurrency else if i == 9 then RelatedAmount
    else if i == 10 then Description else Member
  }

  /** An output column is declared unless it is optional and its source
      column is missing; both currency columns follow the one currency column. */
  predicate Included(p: Presence, c: Column) {
    match c
    case Category => p.category
    case AccountCurrency => p.currency
    case RelatedAccountCurrency => p.currency
    case Description => p.description
    case Member => p.member
    case Tags => false
    case _ => true
  }

  function Opt(b: bool, c: Column): seq<Column> {
    if b then [c] else []
  }

  /** The declared columns among the first k positions. */
  function SchemaUpTo(p: Presence, k: nat): seq<Column>
    requires k <= DeclarableColumnCount
  {
    if k == 0 then [] else SchemaUpTo(p, k - 1) + Opt(Included(p, ColumnAt(k - 1)), ColumnAt(k - 1))
  }

  /** The output schema: the canonical order, keeping an optional column only
      when its source column is in the header. */
  function Schema(view: CommonTable): seq<Column> {
    SchemaUpTo(PresenceOf(view), DeclarableColumnCount)
  }

  predicate StrictlyRanked(cs: seq<Column>) {
    forall i, j :: 0 <= i < j < |cs| ==> Rank(cs[i]) < Rank(cs[j])
  }

  lemma {:induction false} SchemaUpToShape(p: Presence, k: nat)
    requires k <= DeclarableColumnCount
    ensures StrictlyRanked(SchemaUpTo(p, k))
    ensures forall c :: c in SchemaUpTo(p, k) <==> Included(p, c) && Rank(c) < k
  {
    if k > 0 {
      SchemaUpToShape(p, k - 1);
      var s := SchemaUpTo(p, k - 1);
      var c := ColumnAt(k - 1);
      if Included(p, c) {
        forall i, j | 0 <= i < j < |s + [c]| ensures Rank((s + [c])[i]) < Rank((s + [c])[j]) {
          if j == |s| { assert (s + [c])[i] in s; }
        }
      }
      forall x ensures x in SchemaUpTo(p, k) <==> Included(p, x) && Rank(x) < k {
        if Rank(x) == k - 1 { assert ColumnAt(Rank(x)) == x; }
      }
    }
  }

  /** The schema follows the canonical order, hence holds no column twice. */
  lemma SchemaOrdered(view: CommonTable)
    ensures StrictlyRanked(Schema(view))
    ensures forall i, j :: 0 <= i < j < |Schema(view)| ==> Schema(view)[i] != Schema(view)[j]
  {
    SchemaUpToShape(PresenceOf(view), DeclarableColumnCount);
  }

  /** Which columns the schema holds. */
  lemma SchemaColumns(view: CommonTable)
    ensures TransactionType in Schema(view) && TransactionTime in Schema(view) && SubCategory in Schema(view)
    ensures AccountName in Schema(view) && Amount in Schema(view)
    ensures RelatedAccountName in Schema(view) && RelatedAmount in Schema(view)
    ensures Category in Schema(view) <==> view.HasColumn(CategoryColumnName)
    ensures AccountCurrency in Schema(view) <==> view.HasColumn(AccountCurrencyColumnName)
    ensures RelatedAccountCurrency in Schema(view) <==> view.HasColumn(AccountCurrencyColumnName)
    ensures Description in Schema(view) <==> view.HasColumn(DescriptionColumnName)
    ensures Member in Schema(view) <==> view.HasColumn(MemberColumnName)
    ensures Tags !in Schema(view)
  {
    SchemaMembers(view, TransactionType);
    SchemaMembers(view, TransactionTime);
    SchemaMembers(view, Category);
    SchemaMembers(view, SubCategory);
    SchemaMembers(view, AccountName);
    SchemaMembers(view, AccountCurrency);
    SchemaMembers(view, Amount);
    SchemaMembers(view, RelatedAccountName);
    SchemaMembers(view, RelatedAccountCurrency);
    SchemaMembers(view, RelatedAmount);
    SchemaMembers(view, Description);
    SchemaMembers(view, Member);
    SchemaMembers(view, Tags);
  }

  lemma SchemaMembers(view: CommonTable, c: Column)
    ensures c in Schema(view) <==> Included(PresenceOf(view), c)
  {
    SchemaUpToShape(PresenceOf(view), DeclarableColumnCount);
  }

  /** The row parser contributes no columns to the declared schema. */
  lemma SchemaNeedsNoAddedColumns(view: CommonTable)
    ensures Schema(view) + AddedColumns() == Schema(view)
  {
  }

  // ---------------------------------------------------------------- rows

  /** The per-row field map: every mapped column the row has data for. */
  function RowFields(view: CommonTable, cells: seq<string>): RowData
  {
    map c | c in ColumnNameMapping && view.HasData(cells, ColumnNameMapping[c]) :: view.GetData(cells, ColumnNameMapping[c])
  }

  /** A field map never holds the related-leg columns or tags, every value is
      the row's cell under the column's header name, and in a row as long as
      the header it holds exactly the mapped columns of the header. */
  lemma RowFieldsKeys(view: CommonTable, cells: seq<string>)
    ensures RelatedAccountName !in RowFields(view, cells) && RelatedAccountCurrency !in RowFields(view, cells)
    ensures RelatedAmount !in RowFields(view, cells) && Tags !in RowFields(view, cells)
    ensures forall c :: c in RowFields(view, cells) ==>
      exists j :: 0 <= j < |cells| && j < |view.header| && view.header[j] == ColumnNameMapping[c] && RowFields(view, cells)[c] == cells[j]
    ensures |cells| >= view.HeaderColumnCount() ==>
      forall c :: c in RowFields(view, cells) <==> c in ColumnNameMapping && view.HasColumn(ColumnNameMapping[c])
  {
  }

  /** Every column a field map holds is one the table declares. */
  lemma RowKeysInSchema(view: CommonTable, cells: seq<string>)
    ensures forall c :: c in RowFields(view, cells) ==> c in Schema(view)
  {
    SchemaColumns(view);
  }

  /** One data row: the length check, then the field copy and the type check
      with its rewrite to the display name. */
  function RowOutcome(view: CommonTable, cells: seq<string>): Result<RowData> {
    if |cells| < view.HeaderColumnCount() then Failure(ErrFewerFieldsInDataRowThanInHeaderRow)
    else
      var data := RowFields(view, cells);
      var transactionType := Lookup(data, TransactionType);
      if transactionType == IncomeText || transactionType == ExpenseText then
        var name := if transactionType == IncomeText then TypeNameMapping[Income] else TypeNameMapping[Expense];
        Success(data[TransactionType := name])
      else Failure(ErrTransactionTypeInvalid)
  }

  /** A short row fails on its length, whatever its type text. */
  lemma ShortRowFailsFirst(view: CommonTable, cells: seq<string>)
    requires |cells| < view.HeaderColumnCount()
    ensures RowOutcome(view, cells) == Failure(ErrFewerFieldsInDataRowThanInHeaderRow)
  {
  }

  /** A full-length row is accepted exactly when its type text is one of the
      two literals (an absent type reads as "" and is rejected), and the type
      rewrite leaves the field map as it was. */
  lemma RowOutcomeType(view: CommonTable, cells: seq<string>)
    requires |cells| >= view.HeaderColumnCount()
    ensures var t := Lookup(RowFields(view, cells), TransactionType);
      RowOutcome(view, cells) ==
        if t == IncomeText || t == ExpenseText then Success(RowFields(view, cells))
        else Failure(ErrTransactionTypeInvalid)
    ensures !view.HasColumn(TypeColumnName) ==> RowOutcome(view, cells) == Failure(ErrTransactionTypeInvalid)
  {
    var data := RowFields(view, cells);
    var t := Lookup(data, TransactionType);
    if t == IncomeText || t == ExpenseText {
      assert data[TransactionType := t] == data;
    }
  }

  /** The mapping values are the recognised literals themselves. */
  lemma TypeRewriteIsIdentity()
    ensures TypeNameMapping[Income] == IncomeText && TypeNameMapping[Expense] == ExpenseText
  {
  }

  function RowOutcomes(view: CommonTable, rows: seq<seq<string>>): (r: seq<Result<RowData>>)
    ensures |r| == |rows|
    ensures forall i :: 0 <= i < |rows| ==> r[i] == RowOutcome(view, rows[i])
  {
    seq(|rows|, i requires 0 <= i < |rows| => RowOutcome(view, rows[i]))
  }

  /** The row loop over the outcomes of the rows seen so far: it stops at the
      first failing row and otherwise keeps every row in order. */
  function Collect(outcomes: seq<Result<RowData>>): Result<seq<RowData>>
  {
    if outcomes == [] then Success([])
    else
      var done := Collect(outcomes[..|outcomes| - 1]);
      var last := outcomes[|outcomes| - 1];
      if done.Failure? then done
      else if last.Failure? then Failure(last.error)
      else Success(done.value + [last.value])
  }

  /** The row loop over the data rows of a view. */
  function BuildRows(view: CommonTable, rows: seq<seq<string>>): Result<seq<RowData>> {
    Collect(RowOutcomes(view, rows))
  }

  /** All or nothing: the loop succeeds exactly when every row does, and then
      keeps one field map per row, in input order, with nothing skipped. */
  lemma {:induction false} CollectAllOrNothing(outcomes: seq<Result<RowData>>)
    ensures Collect(outcomes).Success? <==> forall i :: 0 <= i < |outcomes| ==> outcomes[i].Success?
    ensures Collect(outcomes).Success? ==>
      && |Collect(outcomes).value| == |outcomes|
      && forall i :: 0 <= i < |outcomes| ==> Collect(outcomes).value[i] == outcomes[i].value
  {
    if outcomes != [] {
      var init := outcomes[..|outcomes| - 1];
      CollectAllOrNothing(init);
      assert forall i :: 0 <= i < |init| ==> init[i] == outcomes[i];
    }
  }

  /** The first failing row decides the error. */
  lemma {:induction false} CollectFirstFailure(outcomes: seq<Result<RowData>>) returns (k: nat)
    requires Collect(outcomes).Failure?
    ensures k < |outcomes|
    ensures forall i :: 0 <= i < k ==> outcomes[i].Success?
    ensures outcomes[k] == Failure(Collect(outcomes).error)
  {
    var init := outcomes[..|outcomes| - 1];
    assert forall i :: 0 <= i < |init| ==> init[i] == outcomes[i];
    if Collect(init).Failure? {
      k := CollectFirstFailure(init);
    } else {
      CollectAllOrNothing(init);
      k := |outcomes| - 1;
    }
  }

  /** The build over all rows: one field map per data row, in order, or the
      error of the first row that fails. */
  lemma BuildRowsSpec(view: CommonTable, rows: seq<seq<string>>)
    ensures BuildRows(view, rows).Success? <==> forall i :: 0 <= i < |rows| ==> RowOutcome(view, rows[i]).Success?
    ensures BuildRows(view, rows).Success? ==>
      && |BuildRows(view, rows).value| == |rows|
      && forall i :: 0 <= i < |rows| ==> BuildRows(view, rows).value[i] == RowFields(view, rows[i])
    ensures BuildRows(view, rows).Failure? ==>
      exists k :: (0 <= k < |rows|
        && (forall i :: 0 <= i < k ==> RowOutcome(view, rows[i]).Success?)
        && RowOutcome(view, rows[k]) == Failure(BuildRows(view, rows).error))
  {
    var outcomes := RowOutcomes(view, rows);
    CollectAllOrNothing(outcomes);
    if Collect(outcomes).Success? {
      forall i | 0 <= i < |rows| ensures Collect(outcomes).value[i] == RowFields(view, rows[i]) {
        RowOutcomeType(view, rows[i]);
      }
    } else {
      var k := CollectFirstFailure(outcomes);
    }
  }

  /** The row loop fails only on a short row or an invalid type. */
  lemma BuildRowsErrorKinds(view: CommonTable, rows: seq<seq<string>>)
    ensures BuildRows(view, rows).Failure? ==>
      BuildRows(view, rows).error in {ErrFewerFieldsInDataRowThanInHeaderRow, ErrTransactionTypeInvalid}
  {
    var outcomes := RowOutcomes(view, rows);
    if Collect(outcomes).Failure? {
      var k := CollectFirstFailure(outcomes);
      if |rows[k]| >= view.HeaderColumnCount() {
        RowOutcomeType(view, rows[k]);
      }
    }
  }

  /** A failure in a prefix of the outcomes is the failure of all of them. */
  lemma {:induction false} CollectPrefixFailure(outcomes: seq<Result<RowData>>, n: nat)
    requires n <= |outcomes|
    requires Collect(outcomes[..n]).Failure?
    ensures Collect(outcomes) == Collect(outcomes[..n])
    decreases |outcomes| - n
  {
    if n < |outcomes| {
      assert outcomes[..n + 1][..n] == outcomes[..n];
      CollectPrefixFailure(outcomes, n + 1);
    } else {
      assert outcomes[..n] == outcomes;
    }
  }

  /** One more successful row extends a successful loop by its field map. */
  lemma CollectStep(outcomes: seq<Result<RowData>>, n: nat)
    requires n < |outcomes| && Collect(outcomes[..n]).Success? && outcomes[n].Success?
    ensures Collect(outcomes[..n + 1]) == Success(Collect(outcomes[..n]).value + [outcomes[n].value])
  {
    assert outcomes[..n + 1][..n] == outcomes[..n];
  }

  /** A failing row after a successful prefix decides the whole loop. */
  lemma CollectFailStep(outcomes: seq<Result<RowData>>, n: nat)
    requires n < |outcomes| && Collect(outcomes[..n]).Success? && outcomes[n].Failure?
    ensures Collect(outcomes) == Failure(outcomes[n].error)
  {
    assert outcomes[..n + 1][..n] == outcomes[..n];
    CollectPrefixFailure(outcomes, n + 1);
  }

  // ---------------------------------------------------------------- builder

  /** The declared columns, appended one by one: the optional ones only when
      their source column is in the header. */
  method NewColumns(view: CommonTable) returns (newColumns: seq<Column>)
    ensures newColumns == Schema(view)
  {
    ghost var p := PresenceOf(view);
    newColumns := [];
    newColumns := newColumns + [TransactionType];
    assert newColumns == SchemaUpTo(p, 1);
    newColumns := newColumns + [TransactionTime];
    assert newColumns == SchemaUpTo(p, 2);
    if view.HasColumn(CategoryColumnName) {
      newColumns := newColumns + [Category];
    }
    assert newColumns == SchemaUpTo(p, 3);
    newColumns := newColumns + [SubCategory];
    assert newColumns == SchemaUpTo(p, 4);
    newColumns := newColumns + [AccountName];
    assert newColumns == SchemaUpTo(p, 5);
    if view.HasColumn(AccountCurrencyColumnName) {
      newColumns := newColumns + [AccountCurrency];
    }
    assert newColumns == SchemaUpTo(p, 6);
    newColumns := newColumns + [Amount];
    assert newColumns == SchemaUpTo(p, 7);
    newColumns := newColumns + [RelatedAccountName];
    assert newColumns == SchemaUpTo(p, 8);
    if view.HasColumn(AccountCurrencyColumnName) {
      newColumns := newColumns + [RelatedAccountCurrency];
    }
    assert newColumns == SchemaUpTo(p, 9);
    newColumns := newColumns + [RelatedAmount];
    assert newColumns == SchemaUpTo(p, 10);
    if view.HasColumn(DescriptionColumnName) {
      newColumns := newColumns + [Description];
    }
    assert newColumns == SchemaUpTo(p, 11);
    if view.HasColumn(MemberColumnName) {
      newColumns := newColumns + [Member];
    }
  }

  /** The per-row field map, filled by walking the column-name mapping. */
  method CopyMappedColumns(view: CommonTable, dataRow: seq<string>) returns (data: RowData)
    ensures data == RowFields(view, dataRow)
  {
    data := map[];
    var pending := ColumnNameMapping.Keys;
    while pending != {}
      invariant pending <= ColumnNameMapping.Keys
      invariant forall c :: c in data <==> c in ColumnNameMapping && c !in pending && view.HasData(dataRow, ColumnNameMapping[c])
      invariant forall c :: c in data ==> data[c] == view.GetData(dataRow, ColumnNameMapping[c])
      decreases pending
    {
      var columnType :| columnType in pending;
      var columnName := ColumnNameMapping[columnType];
      if view.HasData(dataRow, columnName) {
        data := data[columnType := view.GetData(dataRow, columnName)];
      }
      pending := pending - {columnType};
    }
  }

  /** One pass of the row loop: the length check, the field copy and the
      type check with its rewrite to the display name. */
  method ConvertRow(view: CommonTable, dataRow: seq<string>) returns (r: Result<RowData>)
    ensures r == RowOutcome(view, dataRow)
  {
    if |dataRow| < view.HeaderColumnCount() {
      return Failure(ErrFewerFieldsInDataRowThanInHeaderRow);
    }

    var data := CopyMappedColumns(view, dataRow);

    var transactionType := Lookup(data, TransactionType);
    if transactionType == IncomeText || transactionType == ExpenseText {
      if transactionType == IncomeText {
        data := data[TransactionType := TypeNameMapping[Income]];
      } else {
        data := data[TransactionType := TypeNameMapping[Expense]];
      }
      return Success(data);
    } else {
      return Failure(ErrTransactionTypeInvalid);
    }
  }

  /** Builds the transaction table: declares the schema, copies each data row's
      mapped columns, checks its type and adds it; the transfer registry is
      created empty and never written, so its gate never fails. */
  method CreateTransactionDataTable(view: CommonTable) returns (r: Result<TransactionDataTable>)
    ensures r.Success? <==> BuildRows(view, view.dataRows).Success?
    ensures r.Failure? ==> r.error == BuildRows(view, view.dataRows).error
    ensures r.Failure? ==> r.error != ErrFoundRecordNotHasRelatedRecord
    ensures r.Success? ==> fresh(r.value)
    ensures r.Success? ==> r.value.columns == Schema(view) && r.value.rows == BuildRows(view, view.dataRows).value
  {
    var newColumns := NewColumns(view);

    var transactionDataTable := new TransactionDataTable(newColumns);
    var transferTransactionsMap: map<string, RowData> := map[];

    var rows := view.dataRows;
    ghost var outcomes := RowOutcomes(view, rows);
    var n := 0;
    while n < |rows|
      invariant 0 <= n <= |rows|
      invariant fresh(transactionDataTable) && transactionDataTable.columns == newColumns
      invariant Collect(outcomes[..n]).Success?
      invariant transactionDataTable.rows == Collect(outcomes[..n]).value
    {
      var dataRow := rows[n];
      var converted := ConvertRow(view, dataRow);
      if converted.Failure? {
        CollectFailStep(outcomes, n);
        return Failure(converted.error);
      }
      CollectStep(outcomes, n);
      transactionDataTable.Add(converted.value);
      n := n + 1;
    }
    assert outcomes[..n] == outcomes;
    BuildRowsErrorKinds(view, rows);

    if |transferTransactionsMap| > 0 {
      var relatedIds, order := RelatedTransactionIds(transferTransactionsMap);
      return Failure(ErrFoundRecordNotHasRelatedRecord);
    }
    return Success(transactionDataTable);
  }

  /** Joins the registry's related ids for the diagnostic message: a comma is
      written before an id only once the text is non-empty. The order is the
      map's iteration order, which is not fixed. */
  method RelatedTransactionIds(transfers: map<string, RowData>) returns (s: string, ghost order: seq<string>)
    ensures |transfers| == 0 ==> s == ""
    ensures |order| == |transfers|
    ensures forall id :: id in transfers <==> id in order
    ensures forall i, j :: 0 <= i < j < |order| ==> order[i] != order[j]
    ensures s == JoinComma(DropLeadingEmpty(order))
    ensures (forall id :: id in transfers ==> id != "") ==> s == JoinComma(order)
  {
    s := "";
    order := [];
    var remaining := transfers.Keys;
    while remaining != {}
      invariant remaining <= transfers.Keys
      invariant forall id :: id in order ==> id in transfers && id !in remaining
      invariant forall id :: id in transfers ==> id in order || id in remaining
      invariant forall i, j :: 0 <= i < j < |order| ==> order[i] != order[j]
      invariant |order| + |remaining| == |transfers.Keys|
      invariant s == JoinComma(DropLeadingEmpty(order))
      decreases remaining
    {
      var relatedId :| relatedId in remaining;
      JoinStep(order, relatedId);
      if |s| > 0 {
        s := s + ",";
      }
      s := s + relatedId;
      order := order + [relatedId];
      remaining := remaining - {relatedId};
    }
    assert |transfers.Keys| == |transfers|;
    if order != [] && forall id :: id in transfers ==> id != "" {
      assert order[0] in order;
    }
  }

  // ---------------------------------------------------------------- pipeline

  /** The header-keyed view of a CSV grid once its cells are trimmed and its
      first line is taken as the header. */
  function ImportView(raw: seq<seq<string>>): CommonTable
    requires |raw| >= 2
  {
    CommonTableOf(BasicTable(TrimLines(raw), true))
  }

  /** The import pipeline up to the table handed to the generic importer:
      extraction, the required-column check, then the table builder. */
  method ParseImportedData(raw: seq<seq<string>>) returns (r: Result<TransactionDataTable>)
    ensures |raw| < 2 ==> r == Failure(ErrNotFoundTransactionDataInFile)
    ensures |raw| >= 2 && !HasRequiredColumns(ImportView(raw)) ==> r == Failure(ErrMissingRequiredFieldInHeaderRow)
    ensures r.Failure? && r.error == ErrMissingRequiredFieldInHeaderRow ==> |raw| >= 2 && !HasRequiredColumns(ImportView(raw))
    ensures |raw| >= 2 && HasRequiredColumns(ImportView(raw)) ==>
      (r.Success? <==> BuildRows(ImportView(raw), ImportView(raw).dataRows).Success?)
    ensures r.Failure? && |raw| >= 2 && HasRequiredColumns(ImportView(raw)) ==>
      r.error == BuildRows(ImportView(raw), ImportView(raw).dataRows).error
    ensures r.Success? ==> |raw| >= 2 && HasRequiredColumns(ImportView(raw)) && fresh(r.value)
    ensures r.Success? ==> r.value.columns == Schema(ImportView(raw))
    ensures r.Success? ==> r.value.rows == BuildRows(ImportView(raw), ImportView(raw).dataRows).value
  {
    var dataTable := CreateBasicDataTable(raw);
    if dataTable.Failure? {
      return Failure(dataTable.error);
    }

    var commonDataTable := CommonTableOf(dataTable.value);
    assert commonDataTable == ImportView(raw);

    if !commonDataTable.HasColumn(TimeColumnName) ||
       !commonDataTable.HasColumn(TypeColumnName) ||
       !commonDataTable.HasColumn(SubCategoryColumnName) ||
       !commonDataTable.HasColumn(AccountNameColumnName) ||
       !commonDataTable.HasColumn(AmountColumnName) {
      return Failure(ErrMissingRequiredFieldInHeaderRow);
    }

    var transactionDataTable := CreateTransactionDataTable(commonDataTable);
    BuildRowsErrorKinds(commonDataTable, commonDataTable.dataRows);
    return transactionDataTable;
  }
}
