/** `SqlBuilder.BuildSelect` of the exporter pipeline: the cursor-paged query.
    It projects the rowversion column as a `bigint` named `TimestampAsLong`
    next to all columns, keeps the rows strictly above the `@cursor`
    parameter, and returns at most `batchsize` of them in ascending order. */
module CursorSqlBuilder {
  import opened Wrappers
  import opened Values
  import opened Text
  import opened SqlStatement

  const DefaultTimestampColumn: string := "Timestamp"
  const DefaultBatchSize: int32 := 500

  /** The fixed pieces of the template, in order. */
  const ConvertOpen: string := " CONVERT(bigint, "
  const ProjectAll: string := ") as TimestampAsLong,  * FROM "
  const Where: string := " WHERE "
  const AboveCursor: string := " > Convert(timestamp,Convert(bigint, "
  const CursorParameter: string := "@cursor"
  const OrderBy: string := ")) ORDER BY "
  const Ascending: string := " ASC"

  function BuildSelect(tableName: string, timestampColumn: string := DefaultTimestampColumn,
                       batchsize: int32 := DefaultBatchSize): string
  {
    SelectTop + IntToDecimal(batchsize) + ConvertOpen + timestampColumn + ProjectAll + tableName
    + Where + timestampColumn + AboveCursor + CursorParameter + OrderBy + timestampColumn + Ascending
  }

  /** The statement assembled piece by piece, for the proofs below. */
  lemma Assembly(tableName: string, timestampColumn: string, batchsize: int32)
    returns (head: string, upToCursor: string)
    ensures head == SelectTop + IntToDecimal(batchsize) + ConvertOpen + timestampColumn + ProjectAll
    ensures upToCursor == head + tableName + Where + timestampColumn + AboveCursor
    ensures BuildSelect(tableName, timestampColumn, batchsize) ==
      upToCursor + CursorParameter + OrderBy + timestampColumn + Ascending
  {
    head := SelectTop + IntToDecimal(batchsize) + ConvertOpen + timestampColumn + ProjectAll;
    upToCursor := head + tableName + Where + timestampColumn + AboveCursor;
  }

  /** The statement limits the rows to the batch size, projects the cursor
      as `TimestampAsLong` ahead of `*`, filters strictly above `@cursor`,
      and orders ascending by the cursor column. */
  lemma StatementShape(tableName: string, timestampColumn: string, batchsize: int32)
    ensures var r := BuildSelect(tableName, timestampColumn, batchsize);
      && StartsWith(r, SelectTop + IntToDecimal(batchsize) + ConvertOpen + timestampColumn + ProjectAll)
      && Contains(r, Where + timestampColumn + AboveCursor + CursorParameter)
      && EndsWith(r, OrderBy + timestampColumn + Ascending)
  {
    var head, upToCursor := Assembly(tableName, timestampColumn, batchsize);
    var p5 := head + tableName;
    var p6 := p5 + Where;
    var p7 := p6 + timestampColumn;
    var p9 := upToCursor + CursorParameter;
    var p10 := p9 + OrderBy;
    var p11 := p10 + timestampColumn;
    // the head is a prefix of every longer assembly
    PartOf([], head, []);
    assert head + [] == head;
    StartsWithAppend(head, tableName, head);
    StartsWithAppend(p5, Where, head);
    StartsWithAppend(p6, timestampColumn, head);
    StartsWithAppend(p7, AboveCursor, head);
    StartsWithAppend(upToCursor, CursorParameter, head);
    StartsWithAppend(p9, OrderBy, head);
    StartsWithAppend(p10, timestampColumn, head);
    StartsWithAppend(p11, Ascending, head);
    // the filter ends the assembly up to the parameter
    PartOf(p5, Where, []);
    assert p5 + Where + [] == p6;
    EndsWithExtend(p6, Where, timestampColumn);
    EndsWithExtend(p7, Where + timestampColumn, AboveCursor);
    EndsWithExtend(upToCursor, Where + timestampColumn + AboveCursor, CursorParameter);
    EndsWithContains(p9, Where + timestampColumn + AboveCursor + CursorParameter);
    ContainsAppend(p9, OrderBy, Where + timestampColumn + AboveCursor + CursorParameter);
    ContainsAppend(p10, timestampColumn, Where + timestampColumn + AboveCursor + CursorParameter);
    ContainsAppend(p11, Ascending, Where + timestampColumn + AboveCursor + CursorParameter);
    // the ordering ends the statement
    PartOf(p9, OrderBy, []);
    assert p9 + OrderBy + [] == p10;
    EndsWithExtend(p10, OrderBy, timestampColumn);
    EndsWithExtend(p11, OrderBy + timestampColumn, Ascending);
  }

  /** With the default arguments, the statement asks for 500 rows ordered by `Timestamp`. */
  lemma DefaultStatement(tableName: string)
    ensures TopCount(BuildSelect(tableName)) == Some(500)
    ensures EndsWith(BuildSelect(tableName), OrderBy + "Timestamp" + Ascending)
  {
    BatchSizeReadsBack(tableName, DefaultTimestampColumn, DefaultBatchSize);
    StatementShape(tableName, DefaultTimestampColumn, DefaultBatchSize);
  }

  /** The `TOP` clause reads back as the batch size. */
  lemma BatchSizeReadsBack(tableName: string, timestampColumn: string, batchsize: int32)
    ensures TopCount(BuildSelect(tableName, timestampColumn, batchsize)) ==
      if batchsize >= 0 then Some(batchsize as nat) else None
  {
    StatementShape(tableName, timestampColumn, batchsize);
    var r := BuildSelect(tableName, timestampColumn, batchsize);
    var front := SelectTop + IntToDecimal(batchsize);
    assert ConvertOpen[0] == ' ';
    SpaceFollows(front, ConvertOpen);
    StartsWithAppend(front + ConvertOpen, timestampColumn, front + " ");
    StartsWithAppend(front + ConvertOpen + timestampColumn, ProjectAll, front + " ");
    StartsWithTransitive(r, front + ConvertOpen + timestampColumn + ProjectAll, front + " ");
    TopCountOf(batchsize, r);
  }

  /** None of the fixed pieces but the parameter holds an `@`. */
  lemma HeadLacksAt()
    ensures CountChar(SelectTop, '@') == 0 && CountChar(ConvertOpen, '@') == 0
  {
    AbsentCount(SelectTop, '@');
    AbsentCount(ConvertOpen, '@');
  }

  lemma ProjectionLacksAt()
    ensures CountChar(ProjectAll, '@') == 0 && CountChar(Where, '@') == 0
  {
    AbsentCount(ProjectAll, '@');
    AbsentCount(Where, '@');
  }

  lemma FilterLacksAt()
    ensures CountChar(AboveCursor, '@') == 0 && CountChar(OrderBy, '@') == 0
  {
    AbsentCount(AboveCursor, '@');
    AbsentCount(OrderBy, '@');
  }

  lemma TailCountsAt()
    ensures CountChar(Ascending, '@') == 0 && CountChar(CursorParameter, '@') == 1
  {
    AbsentCount(Ascending, '@');
    assert CursorParameter == ['@'] + "cursor";
    AbsentCount("cursor", '@');
    CountCharAppend(['@'], "cursor", '@');
  }

  /** When the names hold no `@`, `@cursor` is the statement's only parameter. */
  lemma OnlyCursorParameter(tableName: string, timestampColumn: string, batchsize: int32)
    requires CountChar(tableName, '@') == 0 && CountChar(timestampColumn, '@') == 0
    ensures CountChar(BuildSelect(tableName, timestampColumn, batchsize), '@') == 1
    ensures Contains(BuildSelect(tableName, timestampColumn, batchsize), CursorParameter)
  {
    SingleAt(tableName, timestampColumn, batchsize);
    var head, upToCursor := Assembly(tableName, timestampColumn, batchsize);
    var p9 := upToCursor + CursorParameter;
    var p10 := p9 + OrderBy;
    var p11 := p10 + timestampColumn;
    PartOf(upToCursor, CursorParameter, []);
    assert upToCursor + CursorParameter + [] == p9;
    EndsWithContains(p9, CursorParameter);
    ContainsAppend(p9, OrderBy, CursorParameter);
    ContainsAppend(p10, timestampColumn, CursorParameter);
    ContainsAppend(p11, Ascending, CursorParameter);
  }

  /** The `@` count of the statement, piece by piece. */
  lemma SingleAt(tableName: string, timestampColumn: string, batchsize: int32)
    requires CountChar(tableName, '@') == 0 && CountChar(timestampColumn, '@') == 0
    ensures CountChar(BuildSelect(tableName, timestampColumn, batchsize), '@') == 1
  {
    var dec := IntToDecimal(batchsize);
    DecimalLacksAt(batchsize);
    HeadLacksAt();
    ProjectionLacksAt();
    FilterLacksAt();
    TailCountsAt();
    var p1 := SelectTop + dec;
    CountCharAppend(SelectTop, dec, '@');
    var p2 := p1 + ConvertOpen;
    CountCharAppend(p1, ConvertOpen, '@');
    var p3 := p2 + timestampColumn;
    CountCharAppend(p2, timestampColumn, '@');
    var p4 := p3 + ProjectAll;
    CountCharAppend(p3, ProjectAll, '@');
    var p5 := p4 + tableName;
    CountCharAppend(p4, tableName, '@');
    var p6 := p5 + Where;
    CountCharAppend(p5, Where, '@');
    var p7 := p6 + timestampColumn;
    CountCharAppend(p6, timestampColumn, '@');
    var p8 := p7 + AboveCursor;
    CountCharAppend(p7, AboveCursor, '@');
    var p9 := p8 + CursorParameter;
    CountCharAppend(p8, CursorParameter, '@');
    var p10 := p9 + OrderBy;
    CountCharAppend(p9, OrderBy, '@');
    var p11 := p10 + timestampColumn;
    CountCharAppend(p10, timestampColumn, '@');
    CountCharAppend(p11, Ascending, '@');
  }
}
