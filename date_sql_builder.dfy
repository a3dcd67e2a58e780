/** `SqlBuilder.BuildSelect` of the legacy pipeline: the date-bounded query.
    It keeps the rows whose date column lies strictly below the `@date`
    parameter and returns at most `batchsize` of them, oldest first. The id
    column is accepted but not used. */
module DateSqlBuilder {
  import opened Wrappers
  import opened Values
  import opened Text
  import opened SqlStatement

  /** The fixed pieces of the template, in order. */
  const AllFrom: string := " * FROM "
  const Where: string := " WHERE "
  const BelowDate: string := " < "
  const DateParameter: string := "@date"
  const OrderBy: string := " ORDER BY "
  const Ascending: string := " ASC"

  function BuildSelect(tableName: string, dateColumn: string, idColumn: string, batchsize: int32): string {
    SelectTop + IntToDecimal(batchsize) + AllFrom + tableName
    + Where + dateColumn + BelowDate + DateParameter + OrderBy + dateColumn + Ascending
  }

  /** The statement limits the rows to the batch size, selects every column,
      filters strictly below `@date`, and orders ascending by the date column. */
  lemma StatementShape(tableName: string, dateColumn: string, idColumn: string, batchsize: int32)
    ensures var r := BuildSelect(tableName, dateColumn, idColumn, batchsize);
      && StartsWith(r, SelectTop + IntToDecimal(batchsize) + AllFrom + tableName)
      && Contains(r, Where + dateColumn + BelowDate + DateParameter)
      && EndsWith(r, OrderBy + dateColumn + Ascending)
  {
    var head := SelectTop + IntToDecimal(batchsize) + AllFrom + tableName;
    var p5 := head + Where;
    var p6 := p5 + dateColumn;
    var p7 := p6 + BelowDate;
    var p8 := p7 + DateParameter;
    var p9 := p8 + OrderBy;
    var p10 := p9 + dateColumn;
    // the head is a prefix of every longer assembly
    PartOf([], head, []);
    assert head + [] == head;
    StartsWithAppend(head, Where, head);
    StartsWithAppend(p5, dateColumn, head);
    StartsWithAppend(p6, BelowDate, head);
    StartsWithAppend(p7, DateParameter, head);
    StartsWithAppend(p8, OrderBy, head);
    StartsWithAppend(p9, dateColumn, head);
    StartsWithAppend(p10, Ascending, head);
    // the filter ends the assembly up to the parameter
    PartOf(head, Where, []);
    assert head + Where + [] == p5;
    EndsWithExtend(p5, Where, dateColumn);
    EndsWithExtend(p6, Where + dateColumn, BelowDate);
    EndsWithExtend(p7, Where + dateColumn + BelowDate, DateParameter);
    EndsWithContains(p8, Where + dateColumn + BelowDate + DateParameter);
    ContainsAppend(p8, OrderBy, Where + dateColumn + BelowDate + DateParameter);
    ContainsAppend(p9, dateColumn, Where + dateColumn + BelowDate + DateParameter);
    ContainsAppend(p10, Ascending, Where + dateColumn + BelowDate + DateParameter);
    // the ordering ends the statement
    PartOf(p8, OrderBy, []);
    assert p8 + OrderBy + [] == p9;
    EndsWithExtend(p9, OrderBy, dateColumn);
    EndsWithExtend(p10, OrderBy + dateColumn, Ascending);
  }

  /** The `TOP` clause reads back as the batch size. */
  lemma BatchSizeReadsBack(tableName: string, dateColumn: string, idColumn: string, batchsize: int32)
    ensures TopCount(BuildSelect(tableName, dateColumn, idColumn, batchsize)) ==
      if batchsize >= 0 then Some(batchsize as nat) else None
  {
    StatementShape(tableName, dateColumn, idColumn, batchsize);
    var r := BuildSelect(tableName, dateColumn, idColumn, batchsize);
    var front := SelectTop + IntToDecimal(batchsize);
    assert AllFrom[0] == ' ';
    SpaceFollows(front, AllFrom);
    StartsWithAppend(front + AllFrom, tableName, front + " ");
    StartsWithTransitive(r, front + AllFrom + tableName, front + " ");
    TopCountOf(batchsize, r);
  }

  /** The id column has no part in the statement. */
  lemma IdColumnIgnored(tableName: string, dateColumn: string, id1: string, id2: string, batchsize: int32)
    ensures BuildSelect(tableName, dateColumn, id1, batchsize) == BuildSelect(tableName, dateColumn, id2, batchsize)
  {
  }

  lemma HeadLacksAt()
    ensures CountChar(SelectTop, '@') == 0 && CountChar(AllFrom, '@') == 0 && CountChar(Where, '@') == 0
  {
    AbsentCount(SelectTop, '@');
    AbsentCount(AllFrom, '@');
    AbsentCount(Where, '@');
  }

  lemma TailCountsAt()
    ensures CountChar(BelowDate, '@') == 0 && CountChar(OrderBy, '@') == 0 && CountChar(Ascending, '@') == 0
    ensures CountChar(DateParameter, '@') == 1
  {
    AbsentCount(BelowDate, '@');
    AbsentCount(OrderBy, '@');
    AbsentCount(Ascending, '@');
    assert DateParameter == ['@'] + "date";
    AbsentCount("date", '@');
    CountCharAppend(['@'], "date", '@');
  }

  /** When the names hold no `@`, `@date` is the statement's only parameter. */
  lemma OnlyDateParameter(tableName: string, dateColumn: string, idColumn: string, batchsize: int32)
    requires CountChar(tableName, '@') == 0 && CountChar(dateColumn, '@') == 0
    ensures CountChar(BuildSelect(tableName, dateColumn, idColumn, batchsize), '@') == 1
    ensures Contains(BuildSelect(tableName, dateColumn, idColumn, batchsize), DateParameter)
  {
    var dec := IntToDecimal(batchsize);
    DecimalLacksAt(batchsize);
    HeadLacksAt();
    TailCountsAt();
    var p1 := SelectTop + dec;
    CountCharAppend(SelectTop, dec, '@');
    var p2 := p1 + AllFrom;
    CountCharAppend(p1, AllFrom, '@');
    var p3 := p2 + tableName;
    CountCharAppend(p2, tableName, '@');
    var p4 := p3 + Where;
    CountCharAppend(p3, Where, '@');
    var p5 := p4 + dateColumn;
    CountCharAppend(p4, dateColumn, '@');
    var p6 := p5 + BelowDate;
    CountCharAppend(p5, BelowDate, '@');
    var p7 := p6 + DateParameter;
    CountCharAppend(p6, DateParameter, '@');
    var p8 := p7 + OrderBy;
    CountCharAppend(p7, OrderBy, '@');
    var p9 := p8 + dateColumn;
    CountCharAppend(p8, dateColumn, '@');
    CountCharAppend(p9, Ascending, '@');
    PartOf(p6, DateParameter, []);
    assert p6 + DateParameter + [] == p7;
    EndsWithContains(p7, DateParameter);
    ContainsAppend(p7, OrderBy, DateParameter);
    ContainsAppend(p8, dateColumn, DateParameter);
    ContainsAppend(p9, Ascending, DateParameter);
  }
}
