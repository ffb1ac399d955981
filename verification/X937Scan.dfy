/** The scanning loop of `parse_x937_file`, with its cursor, its six accumulators and its
    late-flushed current check, proved to compute `X937Parser.Parse`. */
module X937Scan {
  import opened Wrappers
  import opened PythonText
  import opened Calendar
  import opened X937Records
  import opened X937Parser

  method SkipSeparatorsAt(content: Bytes, start: nat) returns (cursor: nat)
    requires start <= |content|
    ensures start <= cursor <= |content|
    ensures content[cursor..] == SkipSeparators(content[start..])
  {
    cursor := start;
    while cursor < |content| && IsSeparator(content[cursor])
      invariant start <= cursor <= |content|
      invariant SkipSeparators(content[cursor..]) == SkipSeparators(content[start..])
    {
      assert content[cursor..][1..] == content[cursor + 1..];
      cursor := cursor + 1;
    }
  }

  lemma FixedHead(content: Bytes, cursor: nat, t: RecordType)
    requires cursor + 2 <= |content| && t == RecordTypeOf(content[cursor..cursor + 2]) && !t.Type52?
    ensures t.UnknownType? ==> Head(content[cursor..]) == Failure(UnrecognizedRecordType)
    ensures !t.UnknownType? && |content| - cursor < FixedLen(t) ==> Head(content[cursor..]) == Failure(Truncated)
    ensures !t.UnknownType? && |content| - cursor >= FixedLen(t) ==>
              var fields := ParseFields(t, content[cursor..cursor + STANDARD_LEN]);
              Head(content[cursor..]) ==
              if fields.Failure? then Failure(fields.error) else Success(Read(fields.value, FixedLen(t)))
  {
    hide ParseFields, RecordTypeOf;
    assert content[cursor..][..2] == content[cursor..cursor + 2];
    if |content| - cursor >= STANDARD_LEN {
      assert content[cursor..][..STANDARD_LEN] == content[cursor..cursor + STANDARD_LEN];
    }
  }

  lemma ImageHead(content: Bytes, cursor: nat)
    requires cursor + 2 <= |content| && RecordTypeOf(content[cursor..cursor + 2]).Type52?
    ensures |content| - cursor < IMAGE_HEADER_LEN ==> Head(content[cursor..]) == Failure(Truncated)
    ensures |content| - cursor >= IMAGE_HEADER_LEN ==>
              var length := ParseInt(Decode(content[cursor + IMAGE_LENGTH_AT..cursor + IMAGE_HEADER_LEN]));
              if length.None? then Head(content[cursor..]) == Failure(NonNumericImageLength)
              else if length.value < 0 || cursor + IMAGE_HEADER_LEN + length.value > |content| then
                Head(content[cursor..]) == Failure(ImageDoesNotFit)
              else
                var end := IMAGE_HEADER_LEN + length.value;
                Head(content[cursor..]) == Success(Read(ImageData(content[cursor + IMAGE_HEADER_LEN..cursor + end]),
                    end))
  {
    hide ParseInt, Decode, RecordTypeOf;
    var s := content[cursor..];
    assert s[..2] == content[cursor..cursor + 2];
    if |s| >= IMAGE_HEADER_LEN {
      assert s[IMAGE_LENGTH_AT..IMAGE_HEADER_LEN] == content[cursor + IMAGE_LENGTH_AT..cursor + IMAGE_HEADER_LEN];
      var length := ParseInt(Decode(content[cursor + IMAGE_LENGTH_AT..cursor + IMAGE_HEADER_LEN]));
      if length.Some? && 0 <= length.value <= |s| - IMAGE_HEADER_LEN {
        var end := IMAGE_HEADER_LEN + length.value;
        assert s[IMAGE_HEADER_LEN..end] == content[cursor + IMAGE_HEADER_LEN..cursor + end];
      }
    }
  }

  /** One turn of the loop: a record was read, the state moved on, the cursor passed it. */
  lemma Advance(content: Bytes, cursor: nat, next: nat, a: Scanner, today: Date)
    requires a.Valid() && cursor < next <= |content|
    requires Head(content[cursor..]).Success?
    requires content[next..] == After(content[cursor..])
    ensures var step := Step(a, Head(content[cursor..]).value.record, today);
            ParseFrom(content[cursor..], a, cursor, today) ==
            if step.Failure? then Failure(ParseError(step.error, cursor))
            else ParseFrom(content[next..], step.value, next, today)
  {
    hide Head, After, Step;
  }

  lemma Rejected(content: Bytes, cursor: nat, a: Scanner, today: Date)
    requires a.Valid() && cursor < |content|
    ensures |content| - cursor < 2 ==> Head(content[cursor..]) == Failure(TruncatedRecordType)
    ensures Head(content[cursor..]).Failure? ==>
              ParseFrom(content[cursor..], a, cursor, today) ==
              Failure(ParseError(Head(content[cursor..]).error, cursor))
    ensures Head(content[cursor..]).Success? && Step(a, Head(content[cursor..]).value.record, today).Failure? ==>
              ParseFrom(content[cursor..], a, cursor, today) ==
              Failure(ParseError(Step(a, Head(content[cursor..]).value.record, today).error, cursor))
  {
    hide HeadImage, ParseFields, RecordTypeOf, After, Step;
  }

  lemma Finished(content: Bytes, cursor: nat, a: Scanner, today: Date)
    requires a.Valid() && cursor == |content|
    ensures ParseFrom(content[cursor..], a, cursor, today) == Success(a.Flushed())
  {
  }

  lemma SkipIsAfter(content: Bytes, cursor: nat, size: nat, next: nat)
    requires cursor + size <= next <= |content|
    requires cursor < |content| && Head(content[cursor..]).Success? && Head(content[cursor..]).value.size == size
    requires content[next..] == SkipSeparators(content[cursor + size..])
    ensures content[next..] == After(content[cursor..])
  {
    hide Head, SkipSeparators;
    assert content[cursor..][size..] == content[cursor + size..];
  }

  /** The declared count and amount of a control record against what was actually parsed. */
  method CompareControl(record: Bytes, scope: Scope, a: nat, b: nat, c: nat, actual: Totals)
      returns (error: Option<ErrorKind>)
    requires a <= b <= c <= |record|
    ensures var declared := ParseControl(record, scope, a, b, c);
            if declared.Failure? then error == Some(declared.error)
            else error == Compare(scope, declared.value.declared, actual)
  {
    hide ParseIntOrZero, Decode;
    var items := ParseIntOrZero(Decode(record[a..b]));
    if items.None? { return Some(NonNumericControl); }
    var cents := ParseIntOrZero(Decode(record[b..c]));
    if cents.None? { return Some(NonNumericControl); }
    if items.value != actual.items { return Some(ItemsMismatch(scope)); }
    if cents.value != actual.cents { return Some(AmountMismatch(scope)); }
    return None;
  }

  method ParseX937File(content: Bytes, today: Date) returns (r: Parsed)
    ensures r == Parse(content, today)
  {
    var items: seq<CheckItem> := [];
    var cursor := 0;
    var itemNumber := 0;
    var current: Option<Record> := None;
    var images: seq<Bytes> := [];
    var date := today;
    var bundle, letter, file := ZERO_TOTALS, ZERO_TOTALS, ZERO_TOTALS;

    hide Head, After, ParseFrom, RecordTypeOf, ParseInt, ParseIntOrZero;
    hide Decode, Strip, ParseBusinessDate, SkipSeparators, Compare, MakeItem;
    assert content[0..] == content;
    while cursor < |content|
      invariant cursor <= |content|
      invariant current.Some? ==> current.value.Check?
      invariant ParseFrom(content[cursor..], Scanner(items, itemNumber, current, images, date, bundle, letter, file),
                cursor, today)
                == Parse(content, today)
    {
      ghost var before := Scanner(items, itemNumber, current, images, date, bundle, letter, file);
      Rejected(content, cursor, before, today);
      if |content| - cursor < 2 { return Failure(ParseError(TruncatedRecordType, cursor)); }
      var recordType := RecordTypeOf(content[cursor..cursor + 2]);
      var size;
      if recordType.Type52? {
        ImageHead(content, cursor);
        if |content| - cursor < IMAGE_HEADER_LEN { return Failure(ParseError(Truncated, cursor)); }
        var length := ParseInt(Decode(content[cursor + IMAGE_LENGTH_AT..cursor + IMAGE_HEADER_LEN]));
        if length.None? { return Failure(ParseError(NonNumericImageLength, cursor)); }
        size := IMAGE_HEADER_LEN + length.value;
        if length.value < 0 || cursor + size > |content| { return Failure(ParseError(ImageDoesNotFit, cursor)); }
        images := images + [content[cursor + IMAGE_HEADER_LEN..cursor + size]];
      } else {
        FixedHead(content, cursor, recordType);
        if recordType.UnknownType? { return Failure(ParseError(UnrecognizedRecordType, cursor)); }
        size := FixedLen(recordType);
        if |content| - cursor < size { return Failure(ParseError(Truncated, cursor)); }
        var record := content[cursor..cursor + STANDARD_LEN];
        var error: Option<ErrorKind> := None;
        match recordType {
          case Type25 =>
            var amount := ParseIntOrZero(Decode(record[47..57]));
            if amount.None? { return Failure(ParseError(NonNumericAmount, cursor)); }
            if current.Some? { items := items + [MakeItem(itemNumber, current.value, date, images)]; }
            itemNumber := itemNumber + 1;
            images := [];
            current := Some(Check(Strip(Decode(record[18..26])), Strip(Decode(record[27..47])),
                Strip(Decode(record[2..17])), amount.value));
            bundle := Totals(bundle.items + 1, bundle.cents + amount.value);
            letter := Totals(letter.items + 1, letter.cents + amount.value);
            file := Totals(file.items + 1, file.cents + amount.value);
          case Type10 =>
            var businessDate := ParseBusinessDate(Strip(Decode(record[21..29])));
            date := if businessDate.Some? then businessDate.value else today;
            letter := ZERO_TOTALS;
          case Type20 => bundle := ZERO_TOTALS;
          case Type70 => error := CompareControl(record, Bundle, 2, 6, 18, bundle);
          case Type90 => error := CompareControl(record, CashLetter, 8, 16, 30, letter);
          case Type99 => error := CompareControl(record, File, 16, 24, 39, file);
          case Type50 =>
          case SkippedType =>
        }
        if error.Some? { return Failure(ParseError(error.value, cursor)); }
      }
      assert Step(before, Head(content[cursor..]).value.record, today)
          == Success(Scanner(items, itemNumber, current, images, date, bundle, letter, file));
      ghost var at := cursor;
      cursor := SkipSeparatorsAt(content, cursor + size);
      SkipIsAfter(content, at, size, cursor);
      Advance(content, at, cursor, before, today);
    }
    Finished(content, cursor, Scanner(items, itemNumber, current, images, date, bundle, letter, file), today);
    if current.Some? { items := items + [MakeItem(itemNumber, current.value, date, images)]; }
    r := Success(items);
  }
}
