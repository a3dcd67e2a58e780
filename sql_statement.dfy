/** What both `BuildSelect` templates share: a statement opening with
    `SELECT TOP ` and the batch size printed in decimal. */
module SqlStatement {
  import opened Wrappers
  import opened Values
  import opened Text

  const SelectTop: string := "SELECT TOP "

  /** The row limit a statement's `TOP` clause reads as, if it is a plain count. */
  function TopCount(statement: string): Option<nat> {
    if StartsWith(statement, SelectTop) then
      var digits := LeadingDigits(statement[|SelectTop|..]);
      if digits == [] then None else Some(ParseDecimal(digits))
    else None
  }

  /** The `TOP` clause of a statement built from `batchsize` reads back as
      `batchsize`; a negative size, printed with its minus sign, is no count. */
  lemma TopCountOf(batchsize: int32, statement: string)
    requires StartsWith(statement, SelectTop + IntToDecimal(batchsize) + " ")
    ensures TopCount(statement) == if batchsize >= 0 then Some(batchsize as nat) else None
  {
    var dec := IntToDecimal(batchsize);
    var rest := statement[|SelectTop + dec|..];
    assert statement == SelectTop + dec + rest;
    assert rest != [] && rest[0] == ' ';
    assert StartsWith(statement, SelectTop);
    assert statement[|SelectTop|..] == dec + rest;
    if batchsize >= 0 {
      NatToDecimalRoundTrip(batchsize as nat);
      LeadingDigitsOf(NatToDecimal(batchsize as nat), rest);
    } else {
      assert (dec + rest)[0] == '-';
    }
  }

  /** The decimal batch size adds no `@` to a statement. */
  lemma DecimalLacksAt(batchsize: int32)
    ensures CountChar(IntToDecimal(batchsize), '@') == 0
  {
    if batchsize >= 0 {
      NatToDecimalRoundTrip(batchsize as nat);
      DigitsLack(NatToDecimal(batchsize as nat), '@');
    } else {
      var magnitude := -(batchsize as int);
      NatToDecimalRoundTrip(magnitude);
      DigitsLack(NatToDecimal(magnitude), '@');
      CountCharAppend("-", NatToDecimal(magnitude), '@');
    }
  }
}
