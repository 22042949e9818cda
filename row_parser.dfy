/** The Qianji row parser: copies a row's field map and canonicalises its
    transaction time to the long date-time form. */
module RowParser {
  import opened Errs
  import opened DataTable

  datatype TransactionType = ModifyBalance | Income | Expense | Transfer

  /** The display names the importer uses for income and expense. */
  const TypeNameMapping: map<TransactionType, string> := map[Income := "收入", Expense := "支出"]

  /** The three date-format recognisers the parser consults; their code is not
      part of this model, so they are supplied by the caller. */
  datatype DateFormats = DateFormats(
    isLongDateTime: string -> bool,
    isLongDateTimeWithoutSecond: string -> bool,
    isLongDate: string -> bool)

  /** The format assumption: completing a date-time without seconds, or a bare
      date, with the suffix the parser appends gives a long date-time. */
  ghost predicate FormatsCompose(f: DateFormats) {
    && (forall s :: f.isLongDateTimeWithoutSecond(s) ==> f.isLongDateTime(s + ":00"))
    && (forall s :: f.isLongDate(s) ==> f.isLongDateTime(s + " 00:00:00"))
  }

  /** The parser adds no columns beyond those copied from the source. */
  function AddedColumns(): (r: seq<Column>)
    ensures |r| == 0
  {
    []
  }

  /** A long date-time is kept, a date-time without seconds gets ":00", a bare
      date gets " 00:00:00" and anything else is kept. */
  function LongDateTime(f: DateFormats, s: string): string
  {
    if f.isLongDateTime(s) then s
    else if f.isLongDateTimeWithoutSecond(s) then s + ":00"
    else if f.isLongDate(s) then s + " 00:00:00"
    else s
  }

  /** The parser only ever appends one of the two suffixes, and a long
      date-time is never changed. */
  lemma LongDateTimeSuffix(f: DateFormats, s: string)
    ensures var r := LongDateTime(f, s);
      r == s || r == s + ":00" || r == s + " 00:00:00"
    ensures f.isLongDateTime(s) ==> LongDateTime(f, s) == s
    ensures !f.isLongDateTime(s) && !f.isLongDateTimeWithoutSecond(s) && !f.isLongDate(s) ==>
      LongDateTime(f, s) == s
  {
  }

  /** Under the format assumption the result is a long date-time, or the input
      untouched when it matches none of the formats. */
  lemma LongDateTimeCanonical(f: DateFormats, s: string)
    requires FormatsCompose(f)
    ensures var r := LongDateTime(f, s);
      f.isLongDateTime(r) || (r == s && !f.isLongDateTimeWithoutSecond(s) && !f.isLongDate(s))
  {
  }

  lemma LongDateTimeIdempotent(f: DateFormats, s: string)
    requires FormatsCompose(f)
    ensures LongDateTime(f, LongDateTime(f, s)) == LongDateTime(f, s)
  {
    LongDateTimeCanonical(f, s);
  }

  /** Copies the field map and canonicalises a non-empty transaction time; the
      row is always valid and there is never an error. */
  method Parse(f: DateFormats, data: RowData) returns (rowData: RowData, rowDataValid: bool, err: Option<ImportError>)
    ensures rowDataValid && err == None
    ensures rowData.Keys == data.Keys
    ensures forall c :: c in data && c != TransactionTime ==> rowData[c] == data[c]
    ensures TransactionTime in data ==>
      rowData[TransactionTime] == if data[TransactionTime] == "" then "" else LongDateTime(f, data[TransactionTime])
  {
    rowData := map[];
    var pending := data.Keys;
    while pending != {}
      invariant pending <= data.Keys
      invariant rowData.Keys == data.Keys - pending
      invariant forall c :: c in rowData ==> rowData[c] == data[c]
      decreases pending
    {
      var column :| column in pending;
      rowData := rowData[column := data[column]];
      pending := pending - {column};
    }
    if Lookup(rowData, TransactionTime) != "" {
      rowData := rowData[TransactionTime := LongDateTime(f, rowData[TransactionTime])];
    }
    return rowData, true, None;
  }

  /** A layout predicate: 'd' stands for a decimal digit, any other character
      for itself. */
  predicate MatchesLayout(s: string, layout: string) {
    |s| == |layout| &&
    forall i :: 0 <= i < |s| ==> if layout[i] == 'd' then '0' <= s[i] <= '9' else s[i] == layout[i]
  }

  /** Shape-only recognisers for yyyy-MM-dd HH:mm:ss, yyyy-MM-dd HH:mm and
      yyyy-MM-dd (digit positions and separators, no range checks). */
  function LayoutFormats(): DateFormats {
    DateFormats(
      s => MatchesLayout(s, "dddd-dd-dd dd:dd:dd"),
      s => MatchesLayout(s, "dddd-dd-dd dd:dd"),
      s => MatchesLayout(s, "dddd-dd-dd"))
  }

  lemma MatchesLayoutConcat(s: string, layout: string, t: string, tail: string)
    requires MatchesLayout(s, layout) && MatchesLayout(t, tail)
    ensures MatchesLayout(s + t, layout + tail)
  {
    forall i | 0 <= i < |s + t|
      ensures if (layout + tail)[i] == 'd' then '0' <= (s + t)[i] <= '9' else (s + t)[i] == (layout + tail)[i]
    {
      if i >= |s| {
        assert (s + t)[i] == t[i - |s|];
        assert (layout + tail)[i] == tail[i - |s|];
      }
    }
  }

  /** The shape recognisers meet the format assumption. */
  lemma LayoutFormatsCompose()
    ensures FormatsCompose(LayoutFormats())
  {
    var f := LayoutFormats();
    forall s | f.isLongDateTimeWithoutSecond(s) ensures f.isLongDateTime(s + ":00") {
      MatchesLayoutConcat(s, "dddd-dd-dd dd:dd", ":00", ":dd");
      assert "dddd-dd-dd dd:dd" + ":dd" == "dddd-dd-dd dd:dd:dd";
    }
    forall s | f.isLongDate(s) ensures f.isLongDateTime(s + " 00:00:00") {
      MatchesLayoutConcat(s, "dddd-dd-dd", " 00:00:00", " dd:dd:dd");
      assert "dddd-dd-dd" + " dd:dd:dd" == "dddd-dd-dd dd:dd:dd";
    }
  }

  /** With the shape recognisers, a bare date gains a midnight time. */
  lemma LayoutBareDate()
    ensures LongDateTime(LayoutFormats(), "2024-01-01") == "2024-01-01 00:00:00"
  {
    assert MatchesLayout("2024-01-01", "dddd-dd-dd");
  }
}
