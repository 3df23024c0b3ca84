/**
 * CSV output (format.cpp) against a reader that follows section 2 of RFC 4180
 * with a semicolon as delimiter. Field texts are given; the reader sees the file
 * the sink writes, every line ended by CR LF.
 */
module Csv {
  import opened Common
  import opened Payload

  const QUOTE: Unit := 0x22
  const DELIMITER: Unit := 0x3B
  const LINE_FEED: Unit := 0x0A
  const CARRIAGE_RETURN: Unit := 0x0D
  const COLUMN_COUNT := 34

  predicate IsControl(c: Unit) { c < 0x20 || 0x7F <= c <= 0x9F }

  predicate NeedsEscaping(c: Unit) { c == QUOTE || c == DELIMITER || IsControl(c) }

  predicate AllPlain(value: Text) {
    forall i :: 0 <= i < |value| ==> !NeedsEscaping(value[i])
  }

  predicate NeedsQuotes(value: Text) { QUOTE in value || DELIMITER in value }

  /** \xHH; every control character takes two digits. */
  function Hex(c: Unit): Text
    requires IsControl(c)
  {
    [0x5C, 0x78, HexDigit(c / 16), HexDigit(c % 16)]
  }

  /** What the reader should get back for a character. */
  function CleanUnit(c: Unit): (r: Text)
    ensures r != []
  {
    if IsControl(c) then Hex(c) else [c]
  }

  /** The control characters of ASCII and Latin-1 are spelled out, everything else is kept. */
  lemma CleanUnitSpells(c: Unit)
    ensures if c < 0x20 || (0x7F <= c && c < 0xA0) then Spells(CleanUnit(c), c) else CleanUnit(c) == [c]
  {
  }

  function Clean(value: Text): Text {
    if value == [] then [] else CleanUnit(value[0]) + Clean(value[1..])
  }

  function EscapedUnit(c: Unit): Text {
    if c == QUOTE then [QUOTE, QUOTE] else if IsControl(c) then Hex(c) else [c]
  }

  function Body(value: Text): Text {
    if value == [] then [] else EscapedUnit(value[0]) + Body(value[1..])
  }

  function Escaped(value: Text): Text {
    if NeedsQuotes(value) then [QUOTE] + Body(value) + [QUOTE] else Body(value)
  }

  lemma {:induction false} BodyMore(value: Text, c: Unit)
    ensures Body(value + [c]) == Body(value) + EscapedUnit(c)
  {
    if value == [] {
      assert value + [c] == [c];
      assert Body([c]) == EscapedUnit(c) + [];
    } else {
      assert (value + [c])[1..] == value[1..] + [c];
      BodyMore(value[1..], c);
    }
  }

  lemma {:induction false} NothingToEscape(value: Text)
    requires AllPlain(value)
    ensures Body(value) == value
  {
    if value != [] {
      NothingToEscape(value[1..]);
      assert value == [value[0]] + value[1..];
    }
  }

  function Quotes(value: Text): Text {
    if NeedsQuotes(value) then [QUOTE] else []
  }

  /** The text built after i characters. */
  function Written(value: Text, i: nat): Text
    requires i <= |value|
  {
    Quotes(value) + Body(value[..i])
  }

  lemma WrittenMore(value: Text, i: nat)
    requires i < |value|
    ensures Written(value, i + 1) == Written(value, i) + EscapedUnit(value[i])
  {
    assert value[..i + 1] == value[..i] + [value[i]];
    BodyMore(value[..i], value[i]);
  }

  lemma WrittenAll(value: Text)
    ensures Written(value, 0) == Quotes(value)
    ensures Written(value, |value|) + Quotes(value) == Escaped(value)
    ensures AllPlain(value) ==> Escaped(value) == value
  {
    assert value[..|value|] == value;
    assert Body(value[..0]) == [] && Quotes(value) + [] == Quotes(value);
    if AllPlain(value) { NothingToEscape(value); }
    if !NeedsQuotes(value) { assert [] + Body(value) + [] == Body(value); }
  }

  lemma {:induction false} NoQuoteInBody(value: Text)
    requires QUOTE !in value
    ensures QUOTE !in Body(value)
  {
    if value != [] {
      assert value[0] in value && forall c | c in value[1..] :: c in value;
      NoQuoteInBody(value[1..]);
      assert QUOTE !in EscapedUnit(value[0]);
    }
  }

  /** A field is put in quotes exactly if it holds a quote or a delimiter. */
  lemma QuotedIf(value: Text)
    ensures 0x22 in value || 0x3B in value ==>
              2 <= |Escaped(value)| && Escaped(value)[0] == 0x22 && Escaped(value)[|Escaped(value)| - 1] == 0x22
    ensures 0x22 !in value && 0x3B !in value ==> 0x22 !in Escaped(value)
  {
    if QUOTE !in value { NoQuoteInBody(value); }
    hide Body;
  }

  /** EscapeCsvField. */
  method EscapeCsvField(value: Text) returns (escaped: Text)
    ensures escaped == Escaped(value)
    ensures 0x22 in value || 0x3B in value ==>
              2 <= |escaped| && escaped[0] == 0x22 && escaped[|escaped| - 1] == 0x22
    ensures 0x22 !in value && 0x3B !in value ==> 0x22 !in escaped
  {
    WrittenAll(value);
    QuotedIf(value);
    hide Written, Escaped, Body, AllPlain, Hex;
    if AllPlain(value) { return value; }
    var quoted := NeedsQuotes(value);
    escaped := [];
    if quoted {
      escaped := [QUOTE];
    }
    for i := 0 to |value|
      invariant escaped == Written(value, i)
    {
      WrittenMore(value, i);
      var c := value[i];
      if c == QUOTE {
        escaped := escaped + [QUOTE, QUOTE];
      } else if IsControl(c) {
        escaped := escaped + Hex(c);
      } else {
        escaped := escaped + [c];
      }
    }
    if quoted {
      escaped := escaped + [QUOTE];
    } else {
      assert escaped + [] == escaped;
    }
  }

  /** Escaped fields with a delimiter after each. */
  function Columns(fields: seq<Text>): Text {
    if fields == [] then [] else Columns(fields[..|fields| - 1]) + Escaped(fields[|fields| - 1]) + [DELIMITER]
  }

  /** A line: the delimiter after the last field is the newline instead. */
  function Line(fields: seq<Text>): (r: Text)
    requires fields != []
    ensures r != [] && r[|r| - 1] == LINE_FEED
  {
    var columns := Columns(fields);
    columns[..|columns| - 1] + [LINE_FEED]
  }

  lemma ColumnsMore(fields: seq<Text>, i: nat)
    requires i < |fields|
    ensures Columns(fields[..i + 1]) == Columns(fields[..i]) + Escaped(fields[i]) + [DELIMITER]
  {
    hide Escaped;
    assert fields[..i + 1][..i] == fields[..i];
  }

  /** The line assembly of Render. GetHeader is the same loop over labels that need no escaping. */
  method RenderLine(fields: seq<Text>) returns (line: Text)
    requires fields != []
    ensures line == Line(fields)
  {
    hide Escaped;
    line := [];
    for i := 0 to |fields|
      invariant line == Columns(fields[..i])
    {
      var column := EscapeCsvField(fields[i]);
      ColumnsMore(fields, i);
      line := line + column + [DELIMITER];
    }
    assert fields[..|fields|] == fields;
    line := line[|line| - 1 := LINE_FEED];
  }

  // ----- The reader -----

  /** A field and what follows it. */
  datatype Read = Read(field: Text, rest: Text)

  /** Inside quotes: everything up to the closing quote, a doubled quote being one. */
  function ReadQuoted(s: Text): Option<Read> {
    if s == [] then None
    else if s[0] != QUOTE then Prepend([s[0]], ReadQuoted(s[1..]))
    else if 1 < |s| && s[1] == QUOTE then Prepend([QUOTE], ReadQuoted(s[2..]))
    else Some(Read([], s[1..]))
  }

  function Prepend(part: Text, r: Option<Read>): Option<Read> {
    if r.None? then None else Some(Read(part + r.value.field, r.value.rest))
  }

  /** Outside quotes: text without a quote, a delimiter or a line break. */
  function ReadPlain(s: Text): Read {
    if s == [] || s[0] == QUOTE || s[0] == DELIMITER || s[0] == CARRIAGE_RETURN || s[0] == LINE_FEED then Read([], s)
    else
      var r := ReadPlain(s[1..]);
      Read([s[0]] + r.field, r.rest)
  }

  function ReadField(s: Text): Option<Read> {
    if s != [] && s[0] == QUOTE then ReadQuoted(s[1..]) else Some(ReadPlain(s))
  }

  lemma {:induction false} QuotedConsumes(s: Text)
    ensures ReadQuoted(s).Some? ==> |ReadQuoted(s).value.rest| < |s|
  {
    if s != [] && s[0] != QUOTE {
      QuotedConsumes(s[1..]);
    } else if 1 < |s| && s[1] == QUOTE {
      QuotedConsumes(s[2..]);
    }
  }

  lemma {:induction false} PlainConsumes(s: Text)
    ensures |ReadPlain(s).rest| <= |s|
  {
    if s != [] { PlainConsumes(s[1..]); }
  }

  lemma FieldConsumes(s: Text)
    ensures ReadField(s).Some? ==> |ReadField(s).value.rest| <= |s|
  {
    PlainConsumes(s);
    if s != [] { QuotedConsumes(s[1..]); }
  }

  datatype Rows = Rows(fields: seq<Text>, rest: Text)

  /** One record: fields between delimiters up to CR LF. */
  function ReadRecord(s: Text): Option<Rows>
    decreases |s|
  {
    FieldConsumes(s);
    var r := ReadField(s);
    if r.None? then None
    else
      var rest := r.value.rest;
      if 0 < |rest| && rest[0] == DELIMITER then
        var more := ReadRecord(rest[1..]);
        if more.None? then None else Some(Rows([r.value.field] + more.value.fields, more.value.rest))
      else if 1 < |rest| && rest[0] == CARRIAGE_RETURN && rest[1] == LINE_FEED then
        Some(Rows([r.value.field], rest[2..]))
      else None
  }

  lemma {:induction false} RecordConsumes(s: Text)
    ensures ReadRecord(s).Some? ==> |ReadRecord(s).value.rest| < |s|
    decreases |s|
  {
    FieldConsumes(s);
    var r := ReadField(s);
    if r.Some? && 0 < |r.value.rest| && r.value.rest[0] == DELIMITER {
      RecordConsumes(r.value.rest[1..]);
    }
  }

  /** A whole file. */
  function ReadFile(s: Text): Option<seq<seq<Text>>>
    decreases |s|
  {
    if s == [] then Some([])
    else
      RecordConsumes(s);
      var r := ReadRecord(s);
      if r.None? then None
      else
        var more := ReadFile(r.value.rest);
        if more.None? then None else Some([r.value.fields] + more.value)
  }

  // ----- Round trip -----

  lemma EndReads(rest: Text)
    requires rest != [] && (rest[0] == DELIMITER || rest[0] == CARRIAGE_RETURN)
    ensures ReadPlain(rest) == Read([], rest)
  {
  }

  lemma PlainUnit(c: Unit)
    requires c != QUOTE && c != DELIMITER
    ensures EscapedUnit(c) == CleanUnit(c) && AllPlain(CleanUnit(c))
  {
  }

  /** Nothing in a cleaned text ends it early for the reader but a quote or a delimiter of its own. */
  lemma {:induction false} PlainReads(value: Text, rest: Text)
    requires !NeedsQuotes(value)
    requires rest != [] && (rest[0] == DELIMITER || rest[0] == CARRIAGE_RETURN)
    ensures Body(value) == Clean(value)
    ensures ReadPlain(Clean(value) + rest) == Read(Clean(value), rest)
    ensures Clean(value) + rest != [] && (Clean(value) + rest)[0] != QUOTE
  {
    hide ReadPlain, EscapedUnit, CleanUnit;
    if value == [] {
      EndReads(rest);
      assert Clean(value) + rest == rest;
    } else {
      var unit, tail := CleanUnit(value[0]), value[1..];
      assert value[0] != QUOTE && value[0] != DELIMITER;
      PlainUnit(value[0]);
      PlainReads(tail, rest);
      assert (unit + Clean(tail)) + rest == unit + (Clean(tail) + rest);
      assert !NeedsEscaping(unit[0]);
      UnitsRead(unit, Clean(tail) + rest);
    }
  }

  lemma {:induction false} UnitsRead(units: Text, s: Text)
    requires AllPlain(units)
    ensures ReadPlain(units + s) == Read(units + ReadPlain(s).field, ReadPlain(s).rest)
  {
    if units == [] {
      assert [] + s == s;
      assert [] + ReadPlain(s).field == ReadPlain(s).field;
    } else {
      assert !NeedsEscaping(units[0]);
      UnitsRead(units[1..], s);
      assert (units + s)[1..] == units[1..] + s && (units + s)[0] == units[0];
      assert [units[0]] + (units[1..] + ReadPlain(s).field) == units + ReadPlain(s).field;
    }
  }

  lemma {:induction false} QuotedUnitsRead(units: Text, s: Text)
    requires QUOTE !in units
    ensures ReadQuoted(units + s) == Prepend(units, ReadQuoted(s))
  {
    if units == [] {
      assert [] + s == s;
      if ReadQuoted(s).Some? { assert [] + ReadQuoted(s).value.field == ReadQuoted(s).value.field; }
    } else {
      QuotedUnitsRead(units[1..], s);
      assert (units + s)[1..] == units[1..] + s;
      if ReadQuoted(s).Some? {
        var field := ReadQuoted(s).value.field;
        assert [units[0]] + (units[1..] + field) == units + field;
      }
    }
  }

  /** Two quotes inside quotes read as one. */
  lemma DoubledQuoteReads(s: Text)
    ensures ReadQuoted([QUOTE, QUOTE] + s) == Prepend([QUOTE], ReadQuoted(s))
  {
    assert ([QUOTE, QUOTE] + s)[2..] == s;
  }

  lemma UnitReads(c: Unit, s: Text)
    ensures ReadQuoted(EscapedUnit(c) + s) == Prepend(CleanUnit(c), ReadQuoted(s))
  {
    if c == QUOTE {
      DoubledQuoteReads(s);
    } else {
      QuotedUnitsRead(EscapedUnit(c), s);
    }
  }

  lemma CloseReads(rest: Text)
    requires rest != [] && rest[0] != QUOTE
    ensures ReadQuoted([QUOTE] + rest) == Some(Read([], rest))
  {
    assert ([QUOTE] + rest)[1..] == rest;
  }

  lemma {:induction false} QuotedReads(value: Text, rest: Text)
    requires rest != [] && rest[0] != QUOTE
    ensures ReadQuoted(Body(value) + ([QUOTE] + rest)) == Some(Read(Clean(value), rest))
  {
    hide ReadQuoted, EscapedUnit, CleanUnit;
    var close := [QUOTE] + rest;
    if value == [] {
      assert Body(value) + close == close;
      CloseReads(rest);
    } else {
      QuotedReads(value[1..], rest);
      var c, tail := value[0], Body(value[1..]);
      assert (EscapedUnit(c) + tail) + close == EscapedUnit(c) + (tail + close);
      UnitReads(c, tail + close);
    }
  }

  /** One rendered field reads back cleaned, whatever it holds. */
  lemma FieldReads(value: Text, rest: Text)
    requires rest != [] && (rest[0] == DELIMITER || rest[0] == CARRIAGE_RETURN)
    ensures ReadField(Escaped(value) + rest) == Some(Read(Clean(value), rest))
  {
    if NeedsQuotes(value) {
      QuotedReads(value, rest);
      assert Escaped(value) + rest == [QUOTE] + (Body(value) + ([QUOTE] + rest));
      assert ([QUOTE] + (Body(value) + ([QUOTE] + rest)))[1..] == Body(value) + ([QUOTE] + rest);
    } else {
      PlainReads(value, rest);
    }
  }

  /** The file form of a line (WriteCrlfLine): its last character becomes CR LF. */
  function Crlf(line: Text): (r: Text)
    requires line != []
    ensures r != []
  {
    line[..|line| - 1] + [CARRIAGE_RETURN] + [LINE_FEED]
  }

  function CleanAll(fields: seq<Text>): (r: seq<Text>)
    ensures |r| == |fields|
  {
    seq(|fields|, i requires 0 <= i < |fields| => Clean(fields[i]))
  }

  /** A line in the file, field by field from the front. */
  function Stored(fields: seq<Text>): Text
    requires fields != []
  {
    if |fields| == 1 then Escaped(fields[0]) + [CARRIAGE_RETURN, LINE_FEED]
    else Escaped(fields[0]) + ([DELIMITER] + Stored(fields[1..]))
  }

  lemma {:induction false} ColumnsFirst(fields: seq<Text>)
    requires fields != []
    ensures Columns(fields) == Escaped(fields[0]) + ([DELIMITER] + Columns(fields[1..]))
  {
    hide Escaped;
    var n := |fields| - 1;
    var last := Escaped(fields[n]);
    if n == 0 {
      assert fields[..0] == [] && fields[1..] == [];
      assert [] + last + [DELIMITER] == last + ([DELIMITER] + []);
    } else {
      ColumnsFirst(fields[..n]);
      assert fields[..n][1..] == fields[1..][..n - 1];
      Reassociate(Escaped(fields[0]), Columns(fields[..n][1..]), last);
    }
  }

  lemma Reassociate(first: Text, middle: Text, last: Text)
    ensures first + ([DELIMITER] + middle) + last + [DELIMITER] == first + ([DELIMITER] + (middle + last + [DELIMITER]))
  {
  }

  lemma TrimLast(first: Text, rest: Text, end: Text)
    requires rest != []
    ensures (first + ([DELIMITER] + rest))[..|first| + |rest|] + end
         == first + ([DELIMITER] + (rest[..|rest| - 1] + end))
  {
  }

  lemma {:induction false} TrimmedIsStored(fields: seq<Text>)
    requires fields != []
    ensures Columns(fields) != []
    ensures Columns(fields)[..|Columns(fields)| - 1] + [CARRIAGE_RETURN, LINE_FEED] == Stored(fields)
  {
    ColumnsFirst(fields);
    hide Escaped;
    var first, rest := Escaped(fields[0]), Columns(fields[1..]);
    if 1 < |fields| {
      TrimmedIsStored(fields[1..]);
      TrimLast(first, rest, [CARRIAGE_RETURN, LINE_FEED]);
    } else {
      assert (first + ([DELIMITER] + []))[..|first|] == first;
    }
  }

  lemma LineIsStored(fields: seq<Text>)
    requires fields != []
    ensures Crlf(Line(fields)) == Stored(fields)
  {
    TrimmedIsStored(fields);
    var columns := Columns(fields);
    hide Columns, Stored;
    var text := columns[..|columns| - 1];
    assert (text + [LINE_FEED])[..|text|] == text;
    assert text + [CARRIAGE_RETURN] + [LINE_FEED] == text + [CARRIAGE_RETURN, LINE_FEED];
  }

  lemma {:induction false} StoredReads(fields: seq<Text>, rest: Text)
    requires fields != []
    ensures ReadRecord(Stored(fields) + rest) == Some(Rows(CleanAll(fields), rest))
  {
    hide Escaped, ReadField;
    var first := Escaped(fields[0]);
    if |fields| == 1 {
      var after := [CARRIAGE_RETURN, LINE_FEED] + rest;
      FieldReads(fields[0], after);
      assert Stored(fields) + rest == first + after;
      assert after[2..] == rest;
      assert CleanAll(fields) == [Clean(fields[0])];
    } else {
      var next := Stored(fields[1..]) + rest;
      StoredReads(fields[1..], rest);
      FieldReads(fields[0], [DELIMITER] + next);
      assert Stored(fields) + rest == first + ([DELIMITER] + next);
      assert ([DELIMITER] + next)[1..] == next;
      assert CleanAll(fields) == [Clean(fields[0])] + CleanAll(fields[1..]);
    }
  }

  /** The fields of a line. */
  type Row = fields: seq<Text> | fields != [] witness [[]]

  /** Lines as they stand in a file. */
  function File(rows: seq<Row>): Text {
    if rows == [] then [] else Crlf(Line(rows[0])) + File(rows[1..])
  }

  function CleanRows(rows: seq<Row>): (r: seq<seq<Text>>)
    ensures |r| == |rows|
  {
    seq(|rows|, i requires 0 <= i < |rows| => CleanAll(rows[i]))
  }

  /**
   * The reader recovers every record of a file of rendered lines, with as many
   * fields as were rendered, each the original with its control characters
   * spelled out.
   */
  lemma {:induction false} FileReadsBack(rows: seq<Row>)
    ensures ReadFile(File(rows)) == Some(CleanRows(rows))
  {
    if rows != [] {
      FileReadsBack(rows[1..]);
      RowReads(rows[0], File(rows[1..]));
      CleanRowsFirst(rows);
      hide Line, Stored, ReadFile, Crlf, CleanAll, CleanRows;
    }
  }

  lemma RowReads(row: Row, rest: Text)
    requires ReadFile(rest).Some?
    ensures ReadFile(Crlf(Line(row)) + rest) == Some([CleanAll(row)] + ReadFile(rest).value)
  {
    LineIsStored(row);
    StoredReads(row, rest);
    hide Line, Stored, ReadFile, ReadRecord, CleanAll;
    FileStep(Crlf(Line(row)) + rest, CleanAll(row), rest);
  }

  lemma CleanRowsFirst(rows: seq<Row>)
    requires rows != []
    ensures CleanRows(rows) == [CleanAll(rows[0])] + CleanRows(rows[1..])
  {
  }

  lemma FileStep(s: Text, fields: seq<Text>, rest: Text)
    requires s != [] && ReadRecord(s) == Some(Rows(fields, rest)) && ReadFile(rest).Some?
    ensures ReadFile(s) == Some([fields] + ReadFile(rest).value)
  {
    hide ReadRecord;
  }

  /** The line of one record reads as its columns, wherever it stands in a file. */
  lemma LineReadsBack(columns: seq<Text>, rest: Text)
    requires |columns| == COLUMN_COUNT
    ensures ReadRecord(Crlf(Line(columns)) + rest) == Some(Rows(CleanAll(columns), rest))
    ensures |CleanAll(columns)| == COLUMN_COUNT
  {
    LineIsStored(columns);
    StoredReads(columns, rest);
  }

  /** Text without control characters comes back exactly. */
  lemma {:induction false} CleanKeepsText(value: Text)
    requires forall c <- value :: !IsControl(c)
    ensures Clean(value) == value
  {
    if value != [] {
      CleanKeepsText(value[1..]);
      assert value == [value[0]] + value[1..];
    }
  }

  lemma {:induction false} BodyHasNoControl(value: Text, i: nat)
    requires i < |Body(value)|
    ensures !IsControl(Body(value)[i])
  {
    var head := EscapedUnit(value[0]);
    if i < |head| {
      assert Body(value)[i] == head[i];
    } else {
      BodyHasNoControl(value[1..], i - |head|);
    }
  }

  lemma {:induction false} ColumnsHaveNoControl(fields: seq<Text>, i: nat)
    requires i < |Columns(fields)|
    ensures !IsControl(Columns(fields)[i])
  {
    var n := |fields| - 1;
    var before, last := Columns(fields[..n]), Escaped(fields[n]);
    if i < |before| {
      ColumnsHaveNoControl(fields[..n], i);
    } else if i < |before| + |last| {
      var j := i - |before|;
      assert Columns(fields)[i] == last[j];
      if NeedsQuotes(fields[n]) {
        if 0 < j < |last| - 1 { BodyHasNoControl(fields[n], j - 1); }
      } else {
        BodyHasNoControl(fields[n], j);
      }
    }
  }

  /** A line has one newline, its last character, and no other control character. */
  lemma OneNewline(fields: seq<Text>, i: nat)
    requires fields != [] && i < |Line(fields)|
    ensures Line(fields)[i] == LINE_FEED <==> i == |Line(fields)| - 1
    ensures IsControl(Line(fields)[i]) <==> i == |Line(fields)| - 1
  {
    if i < |Line(fields)| - 1 {
      ColumnsHaveNoControl(fields, i);
    }
  }
}
