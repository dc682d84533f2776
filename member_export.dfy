/**
  The CSV export of member verifications (`exportToExcel` in app/admin/members/page.tsx;
  app/members/page.tsx holds the same code): `escapeCSV`, the header and one record per
  member joined into the CSV text, the byte order mark in front of it and the download
  name. A reader for the field, record and file grammar of section 2 of RFC 4180 is the
  partner the export is proved against: reading the exported text back gives the header
  and every member's fields, in order.
*/
module MemberExport {
  import opened Wrappers
  import Text
  import Web

  // ---------------------------------------------------------------- escapeCSV

  /** `str.replace(/"/g, '""')`: every double quote doubled. */
  function DoubleQuotes(s: string): (r: string)
    ensures |r| >= |s|
    ensures ('"' in r) == ('"' in s)
    ensures forall c :: c != '"' ==> (c in r <==> c in s)
    ensures '"' !in s ==> r == s
  {
    if s == [] then []
    else (if s[0] == '"' then "\"\"" else [s[0]]) + DoubleQuotes(s[1..])
  }

  /** The characters that make `escapeCSV` wrap its result in quotes. */
  predicate NeedsQuoting(s: string) {
    ',' in s || '"' in s || '\n' in s || '\r' in s
  }

  /**
    `escapeCSV(value)`: `''` for a missing or empty value; otherwise the value with its
    quotes doubled, wrapped in quotes when it holds a comma, quote, LF or CR.
  */
  function EscapeCsv(value: Option<string>): (r: string)
    ensures !Text.Truthy(value) ==> r == ""
    ensures Text.Truthy(value) && !NeedsQuoting(value.value) ==> r == value.value
    ensures Text.Truthy(value) && NeedsQuoting(value.value) ==> r == "\"" + DoubleQuotes(value.value) + "\""
  {
    if !Text.Truthy(value) then ""
    else
      var str := DoubleQuotes(value.value);
      if ',' in str || '"' in str || '\n' in str || '\r' in str then "\"" + str + "\"" else str
  }

  // ---------------------------------------------------------------- joining

  /** `parts.join(sep)`. */
  function Join(parts: seq<string>, sep: char): string {
    if parts == [] then ""
    else if |parts| == 1 then parts[0]
    else parts[0] + [sep] + Join(parts[1..], sep)
  }

  /** `values.map(escapeCSV)`. */
  function EscapeAll(values: seq<Option<string>>): (r: seq<string>)
    ensures |r| == |values|
    ensures forall i :: 0 <= i < |values| ==> r[i] == EscapeCsv(values[i])
  {
    seq(|values|, i requires 0 <= i < |values| => EscapeCsv(values[i]))
  }

  /** The text a reader recovers from each field: the value, or `''` for a missing one. */
  function Texts(values: seq<Option<string>>): (r: seq<string>)
    ensures |r| == |values|
    ensures forall i :: 0 <= i < |values| ==> r[i] == values[i].GetOr("")
  {
    seq(|values|, i requires 0 <= i < |values| => values[i].GetOr(""))
  }

  // ---------------------------------------------------------------- reading back (RFC 4180, section 2)

  /** Characters that end an unquoted field: the field and record separators. */
  predicate IsSeparator(c: char) {
    c == ',' || c == '\n' || c == '\r'
  }

  /** The body of a quoted field up to its closing quote, with `""` read as one quote. */
  function ParseQuoted(s: string): (r: Option<(string, string)>)
    ensures r.Some? ==> |r.value.1| < |s|
    decreases |s|
  {
    if s == [] then None
    else if s[0] == '"' then
      if |s| > 1 && s[1] == '"' then
        match ParseQuoted(s[2..])
        case None => None
        case Some((f, rest)) => Some(("\"" + f, rest))
      else Some(([], s[1..]))
    else
      match ParseQuoted(s[1..])
      case None => None
      case Some((f, rest)) => Some(([s[0]] + f, rest))
  }

  /** The longest prefix free of separators: the text of an unquoted field. */
  function BareRun(s: string): (r: string)
    ensures |r| <= |s| && r == s[..|r|]
    ensures forall i :: 0 <= i < |r| ==> !IsSeparator(r[i])
    ensures |r| < |s| ==> IsSeparator(s[|r|])
  {
    if s == [] || IsSeparator(s[0]) then [] else [s[0]] + BareRun(s[1..])
  }

  /**
    One field and the text after it: a quoted field when it opens with a quote, otherwise
    an unquoted field, in which a quote is an error.
  */
  function ParseField(s: string): (r: Option<(string, string)>)
    ensures r.Some? ==> |r.value.1| <= |s|
  {
    if s != [] && s[0] == '"' then ParseQuoted(s[1..])
    else
      var f := BareRun(s);
      if '"' in f then None else Some((f, s[|f|..]))
  }

  /** How a record ends: at the end of the text, or at an LF with more text after it. */
  datatype RecordEnd = EndOfInput | NextLine(rest: string)

  /** One record: fields separated by commas, ended by an LF or the end of the text. */
  function ParseRecord(s: string): (r: Option<(seq<string>, RecordEnd)>)
    ensures r.Some? && r.value.1.NextLine? ==> |r.value.1.rest| < |s|
    decreases |s|
  {
    match ParseField(s)
    case None => None
    case Some((f, rest)) =>
      if rest == [] then Some(([f], EndOfInput))
      else if rest[0] == '\n' then Some(([f], NextLine(rest[1..])))
      else if rest[0] == ',' then
        match ParseRecord(rest[1..])
        case None => None
        case Some((fields, end)) => Some(([f] + fields, end))
      else None
  }

  /** A whole CSV text: records separated by LF, without a separator after the last one. */
  function ParseCsv(s: string): Option<seq<seq<string>>>
    decreases |s|
  {
    match ParseRecord(s)
    case None => None
    case Some((fields, EndOfInput)) => Some([fields])
    case Some((fields, NextLine(rest))) =>
      match ParseCsv(rest)
      case None => None
      case Some(rows) => Some([fields] + rows)
  }

  /** Text that may follow a field: nothing, or a field or record separator. */
  predicate FieldBoundary(rest: string) {
    rest == [] || rest[0] == ',' || rest[0] == '\n'
  }

  /** The closing quote of a quoted field, followed by a separator or the end of the text. */
  lemma ParseQuotedClose(rest: string)
    requires FieldBoundary(rest)
    ensures ParseQuoted("\"" + rest) == Some(([], rest))
  {
    assert ("\"" + rest)[1..] == rest;
  }

  /** A doubled quote inside a quoted field reads as one quote. */
  lemma ParseQuotedEscapedQuote(inner: string, f: string, rest: string)
    requires ParseQuoted(inner) == Some((f, rest))
    ensures ParseQuoted("\"\"" + inner) == Some(("\"" + f, rest))
  {
    assert ("\"\"" + inner)[2..] == inner;
  }

  /** Any other character inside a quoted field reads as itself. */
  lemma ParseQuotedPlain(c: char, inner: string, f: string, rest: string)
    requires c != '"'
    requires ParseQuoted(inner) == Some((f, rest))
    ensures ParseQuoted([c] + inner) == Some(([c] + f, rest))
  {
    assert ([c] + inner)[1..] == inner;
  }

  /** `DoubleQuotes` one character at a time, in front of any text. */
  lemma DoubleQuotesCons(v: string, tail: string)
    requires v != []
    ensures DoubleQuotes(v) + tail == (if v[0] == '"' then "\"\"" else [v[0]]) + (DoubleQuotes(v[1..]) + tail)
  {
    var head := if v[0] == '"' then "\"\"" else [v[0]];
    assert DoubleQuotes(v) == head + DoubleQuotes(v[1..]);
    Text.ConcatAssoc(head, DoubleQuotes(v[1..]), tail);
  }

  /** The body of a quoted field reads back as the value whose quotes were doubled. */
  lemma {:induction false} QuotedRoundTrip(v: string, rest: string)
    requires FieldBoundary(rest)
    ensures ParseQuoted(DoubleQuotes(v) + ("\"" + rest)) == Some((v, rest))
    decreases |v|
  {
    var closing := "\"" + rest;
    if v == [] {
      assert DoubleQuotes(v) + closing == closing;
      ParseQuotedClose(rest);
    } else {
      var inner := DoubleQuotes(v[1..]) + closing;
      QuotedRoundTrip(v[1..], rest);
      DoubleQuotesCons(v, closing);
      if v[0] == '"' {
        ParseQuotedEscapedQuote(inner, v[1..], rest);
        assert "\"" + v[1..] == v;
      } else {
        ParseQuotedPlain(v[0], inner, v[1..], rest);
        assert [v[0]] + v[1..] == v;
      }
    }
  }

  /** A value without separators reads back as an unquoted field. */
  lemma {:induction false} BareRoundTrip(v: string, rest: string)
    requires forall i :: 0 <= i < |v| ==> !IsSeparator(v[i])
    requires FieldBoundary(rest)
    ensures BareRun(v + rest) == v
    decreases |v|
  {
    if v == [] {
    } else {
      assert (v + rest)[1..] == v[1..] + rest;
      BareRoundTrip(v[1..], rest);
    }
  }

  /**
    `escapeCSV` is undone by the reader: whatever follows the field, reading
    `escapeCSV(v)` gives back `v` (and `''` for a missing value) and stops at the separator.
  */
  lemma FieldRoundTrip(v: Option<string>, rest: string)
    requires FieldBoundary(rest)
    ensures ParseField(EscapeCsv(v) + rest) == Some((v.GetOr(""), rest))
  {
    var s := EscapeCsv(v) + rest;
    if !Text.Truthy(v) {
      assert ParseField(s) == Some(("", rest)) by {
        assert s == rest;
        BareRoundTrip([], rest);
        assert rest[0..] == rest;
      }
    } else if NeedsQuoting(v.value) {
      var body := DoubleQuotes(v.value);
      assert ParseField(s) == Some((v.value, rest)) by {
        Text.ConcatAssoc("\"" + body, "\"", rest);
        Text.ConcatAssoc("\"", body, "\"" + rest);
        assert s == "\"" + (body + ("\"" + rest));
        assert s[1..] == body + ("\"" + rest);
        QuotedRoundTrip(v.value, rest);
      }
    } else {
      assert ParseField(s) == Some((v.value, rest)) by {
        assert s == v.value + rest;
        BareRoundTrip(v.value, rest);
        assert s[|v.value|..] == rest;
      }
    }
  }

  /** Reading a record whose first field is followed by a comma: that field, then the rest of the record. */
  lemma ParseRecordAfterComma(s: string, f: string, tail: string)
    requires ParseField(s) == Some((f, "," + tail))
    ensures ParseRecord(s) == match ParseRecord(tail)
      case None => None
      case Some((fields, end)) => Some(([f] + fields, end))
  {
    assert ("," + tail)[1..] == tail;
  }

  /** `parts.join(sep)` for two or more parts: the first part, the separator, the rest joined. */
  lemma JoinCons(parts: seq<string>, sep: char, rest: string)
    requires |parts| >= 2
    ensures Join(parts, sep) + rest == parts[0] + ([sep] + (Join(parts[1..], sep) + rest))
  {
    var tail := Join(parts[1..], sep);
    assert Join(parts, sep) == parts[0] + [sep] + tail;
    Text.ConcatAssoc(parts[0] + [sep], tail, rest);
    Text.ConcatAssoc(parts[0], [sep], tail + rest);
  }

  /** How a record of escaped fields ends: at the end of the text, or at the LF in front of `rest`. */
  function EndBefore(rest: string): RecordEnd
    requires rest == [] || rest[0] == '\n'
  {
    if rest == [] then EndOfInput else NextLine(rest[1..])
  }

  /** A record of one escaped field. */
  lemma RecordOfOne(values: seq<Option<string>>, rest: string)
    requires |values| == 1
    requires rest == [] || rest[0] == '\n'
    ensures ParseRecord(Join(EscapeAll(values), ',') + rest) == Some((Texts(values), EndBefore(rest)))
  {
    assert Join(EscapeAll(values), ',') == EscapeCsv(values[0]);
    FieldRoundTrip(values[0], rest);
    assert Texts(values) == [values[0].GetOr("")];
  }

  /** An escaped field and a comma in front of a record that reads back. */
  lemma RecordCons(values: seq<Option<string>>, rest: string, end: RecordEnd)
    requires |values| >= 2
    requires ParseRecord(Join(EscapeAll(values[1..]), ',') + rest) == Some((Texts(values[1..]), end))
    ensures ParseRecord(Join(EscapeAll(values), ',') + rest) == Some((Texts(values), end))
  {
    var escaped := EscapeAll(values);
    var tail := Join(EscapeAll(values[1..]), ',') + rest;
    assert escaped[1..] == EscapeAll(values[1..]);
    JoinCons(escaped, ',', rest);
    assert Join(escaped, ',') + rest == EscapeCsv(values[0]) + ("," + tail);
    FieldRoundTrip(values[0], "," + tail);
    ParseRecordAfterComma(Join(escaped, ',') + rest, values[0].GetOr(""), tail);
    TextsCons(values);
  }

  /** `Texts` one value at a time. */
  lemma TextsCons(values: seq<Option<string>>)
    requires |values| >= 1
    ensures Texts(values) == [values[0].GetOr("")] + Texts(values[1..])
  {
    var texts := Texts(values);
    var split := [values[0].GetOr("")] + Texts(values[1..]);
    forall i | 0 <= i < |texts|
      ensures texts[i] == split[i]
    {
      if i > 0 {
        assert split[i] == Texts(values[1..])[i - 1];
      }
    }
    assert texts == split;
  }

  /** A record of escaped fields reads back as the fields' values, and ends where it should. */
  lemma {:induction false} RecordRoundTrip(values: seq<Option<string>>, rest: string)
    requires |values| >= 1
    requires rest == [] || rest[0] == '\n'
    ensures ParseRecord(Join(EscapeAll(values), ',') + rest) == Some((Texts(values), EndBefore(rest)))
    decreases |values|
  {
    if |values| == 1 {
      RecordOfOne(values, rest);
    } else {
      RecordRoundTrip(values[1..], rest);
      RecordCons(values, rest, EndBefore(rest));
    }
  }

  /** Each row's values escaped and joined by commas: the lines of the CSV text. */
  function EncodeRows(rows: seq<seq<Option<string>>>): (lines: seq<string>)
    ensures |lines| == |rows|
    ensures forall i :: 0 <= i < |rows| ==> lines[i] == Join(EscapeAll(rows[i]), ',')
  {
    seq(|rows|, i requires 0 <= i < |rows| => Join(EscapeAll(rows[i]), ','))
  }

  /** What a reader should recover from each row. */
  function DecodedRows(rows: seq<seq<Option<string>>>): (texts: seq<seq<string>>)
    ensures |texts| == |rows|
    ensures forall i :: 0 <= i < |rows| ==> texts[i] == Texts(rows[i])
  {
    seq(|rows|, i requires 0 <= i < |rows| => Texts(rows[i]))
  }

  /** Records joined by LF read back as the list of their fields. */
  lemma {:induction false} CsvRoundTrip(rows: seq<seq<Option<string>>>)
    requires |rows| >= 1
    requires forall i :: 0 <= i < |rows| ==> |rows[i]| >= 1
    ensures ParseCsv(Join(EncodeRows(rows), '\n')) == Some(DecodedRows(rows))
    decreases |rows|
  {
    if |rows| == 1 {
      CsvOfOne(rows);
    } else {
      CsvRoundTrip(rows[1..]);
      CsvCons(rows);
    }
  }

  /** A text of one record. */
  lemma CsvOfOne(rows: seq<seq<Option<string>>>)
    requires |rows| == 1 && |rows[0]| >= 1
    ensures ParseCsv(Join(EncodeRows(rows), '\n')) == Some(DecodedRows(rows))
  {
    assert Join(EncodeRows(rows), '\n') == Join(EscapeAll(rows[0]), ',') + [];
    RecordRoundTrip(rows[0], []);
    assert DecodedRows(rows) == [Texts(rows[0])];
  }

  /** A record and an LF in front of a text that reads back. */
  lemma CsvCons(rows: seq<seq<Option<string>>>)
    requires |rows| >= 2 && |rows[0]| >= 1
    requires ParseCsv(Join(EncodeRows(rows[1..]), '\n')) == Some(DecodedRows(rows[1..]))
    ensures ParseCsv(Join(EncodeRows(rows), '\n')) == Some(DecodedRows(rows))
  {
    var lines := EncodeRows(rows);
    var tail := Join(EncodeRows(rows[1..]), '\n');
    assert lines[1..] == EncodeRows(rows[1..]);
    assert Join(lines, '\n') == lines[0] + "\n" + tail;
    Text.ConcatAssoc(lines[0], "\n", tail);
    RecordRoundTrip(rows[0], "\n" + tail);
    assert ("\n" + tail)[1..] == tail;
    DecodedRowsCons(rows);
  }

  /** `DecodedRows` one row at a time. */
  lemma DecodedRowsCons(rows: seq<seq<Option<string>>>)
    requires |rows| >= 1
    ensures DecodedRows(rows) == [Texts(rows[0])] + DecodedRows(rows[1..])
  {
    var decoded := DecodedRows(rows);
    var split := [Texts(rows[0])] + DecodedRows(rows[1..]);
    forall i | 0 <= i < |decoded|
      ensures decoded[i] == split[i]
    {
      if i > 0 {
        assert split[i] == DecodedRows(rows[1..])[i - 1];
      }
    }
    assert decoded == split;
  }

  // ---------------------------------------------------------------- the export

  /** A `MemberVerification` as the backend sends it; any text field may come back null. */
  datatype Member = Member(
    id: int,
    fullName: Option<string>,
    phone: Option<string>,
    companyName: Option<string>,
    note: Option<string>,
    memberEmail: Option<string>,
    fileName: Option<string>,
    fileSize: Option<int>,
    createdAt: string)

  /** The column titles of the export, in order. */
  const Headers: seq<string> := ["Full Name", "Email", "Phone", "Company", "Note", "File Name", "File Size (MB)", "Created At"]

  /** `headers.join(',')`: the titles are joined without escaping. */
  function HeaderLine(): string {
    Join(Headers, ',')
  }

  /** No title holds a comma, quote or line break. */
  lemma TitleNeedsNoQuoting(i: int)
    requires 0 <= i < |Headers|
    ensures !NeedsQuoting(Headers[i])
  {
    if i == 0 { assert Headers[i] == "Full Name"; }
    else if i == 1 { assert Headers[i] == "Email"; }
    else if i == 2 { assert Headers[i] == "Phone"; }
    else if i == 3 { assert Headers[i] == "Company"; }
    else if i == 4 { assert Headers[i] == "Note"; }
    else if i == 5 { assert Headers[i] == "File Name"; }
    else if i == 6 { assert Headers[i] == "File Size (MB)"; }
    else { assert Headers[i] == "Created At"; }
  }

  /** So the unescaped header line is also the escaped one. */
  lemma HeaderNeedsNoEscaping()
    ensures EscapeAll(HeaderValues()) == Headers
  {
    forall i | 0 <= i < |Headers|
      ensures EscapeAll(HeaderValues())[i] == Headers[i]
    {
      TitleNeedsNoQuoting(i);
    }
  }

  /** `member.file_size?.toString()`, for a whole number of megabytes. */
  function FileSizeText(size: Option<int>): (r: Option<string>)
    ensures r.Some? <==> size.Some?
    ensures r.Some? ==> r.value != ""
    ensures size.Some? && size.value >= 0 ==> Text.IsNumeral(r.value) && Text.DigitsValue(r.value) == size.value
  {
    match size
    case None => None
    case Some(n) => Some(Text.IntText(n))
  }

  /**
    The eight values of a member's record, in column order; `formatDate` stands for the
    locale formatting of `created_at`.
  */
  function RecordValues(m: Member, formatDate: string -> string): (r: seq<Option<string>>)
    ensures |r| == |Headers|
  {
    [m.fullName, m.memberEmail, m.phone, m.companyName, m.note, m.fileName, FileSizeText(m.fileSize), Some(formatDate(m.createdAt))]
  }

  /** The titles as the values of the first row. */
  function HeaderValues(): (values: seq<Option<string>>)
    ensures |values| == |Headers|
    ensures forall i :: 0 <= i < |Headers| ==> values[i] == Some(Headers[i])
  {
    seq(|Headers|, i requires 0 <= i < |Headers| => Some(Headers[i]))
  }

  /** The CSV rows as values: the titles, then one row per member in list order. */
  function Rows(members: seq<Member>, formatDate: string -> string): (rows: seq<seq<Option<string>>>)
    ensures |rows| == |members| + 1
    ensures rows[0] == HeaderValues()
    ensures forall i :: 0 <= i < |members| ==> rows[i + 1] == RecordValues(members[i], formatDate)
    ensures forall i :: 0 <= i < |rows| ==> |rows[i]| == |Headers|
  {
    [HeaderValues()] + seq(|members|, i requires 0 <= i < |members| => RecordValues(members[i], formatDate))
  }

  /** `members.map(member => [...].join(','))`: one escaped line per member. */
  function MemberLines(members: seq<Member>, formatDate: string -> string): (lines: seq<string>)
    ensures |lines| == |members|
    ensures forall i :: 0 <= i < |members| ==> lines[i] == Join(EscapeAll(RecordValues(members[i], formatDate)), ',')
  {
    seq(|members|, i requires 0 <= i < |members| => Join(EscapeAll(RecordValues(members[i], formatDate)), ','))
  }

  /** `csvData`: the header line and every member's escaped record, joined by LF. */
  function CsvText(members: seq<Member>, formatDate: string -> string): string {
    Join([HeaderLine()] + MemberLines(members, formatDate), '\n')
  }

  /** The values a reader should find in each member's record. */
  function MemberTexts(members: seq<Member>, formatDate: string -> string): (texts: seq<seq<string>>)
    ensures |texts| == |members|
    ensures forall i :: 0 <= i < |members| ==> texts[i] == Texts(RecordValues(members[i], formatDate))
  {
    seq(|members|, i requires 0 <= i < |members| => Texts(RecordValues(members[i], formatDate)))
  }

  /** The byte order mark put in front of the CSV text. */
  const Bom: char := '\U{FEFF}'

  /** `csvContent`: one byte order mark, then the CSV text. */
  function CsvContent(members: seq<Member>, formatDate: string -> string): (content: string)
    ensures |content| == |CsvText(members, formatDate)| + 1
    ensures content[0] == Bom && content[1..] == CsvText(members, formatDate)
  {
    [Bom] + CsvText(members, formatDate)
  }

  /**
    The exported text reads back as the eight titles followed by each member's eight
    values in list order: a missing value as `''`, every other value exactly as stored,
    however many commas, quotes or line breaks it holds.
  */
  lemma ExportRoundTrip(members: seq<Member>, formatDate: string -> string)
    ensures ParseCsv(CsvText(members, formatDate)) == Some([Headers] + MemberTexts(members, formatDate))
  {
    var rows := Rows(members, formatDate);
    CsvRoundTrip(rows);
    CsvTextEncodesRows(members, formatDate);
    ExportRowsDecode(members, formatDate);
  }

  /** What the reader should find, row by row: the titles, then each member's values. */
  lemma ExportRowsDecode(members: seq<Member>, formatDate: string -> string)
    ensures DecodedRows(Rows(members, formatDate)) == [Headers] + MemberTexts(members, formatDate)
  {
    var rows := Rows(members, formatDate);
    var expected := [Headers] + MemberTexts(members, formatDate);
    forall i | 0 <= i < |rows|
      ensures DecodedRows(rows)[i] == expected[i]
    {
      if i == 0 {
        HeaderTexts();
      } else {
        DecodedMemberRow(members, formatDate, i);
      }
    }
    assert DecodedRows(rows) == expected;
  }

  /** Row `i` past the titles reads back as member `i - 1`'s values. */
  lemma DecodedMemberRow(members: seq<Member>, formatDate: string -> string, i: int)
    requires 1 <= i <= |members|
    ensures DecodedRows(Rows(members, formatDate))[i] == MemberTexts(members, formatDate)[i - 1]
  {
    assert Rows(members, formatDate)[i] == RecordValues(members[i - 1], formatDate);
  }

  /** The titles read back as themselves. */
  lemma HeaderTexts()
    ensures Texts(HeaderValues()) == Headers
  {
    forall i | 0 <= i < |Headers|
      ensures Texts(HeaderValues())[i] == Headers[i]
    {
    }
  }

  /** Indexing past the head of `[x] + s`. */
  lemma ConsIndex<T>(x: T, s: seq<T>, i: int)
    requires 1 <= i <= |s|
    ensures ([x] + s)[i] == s[i - 1]
  {
  }

  /** The escaped member rows are the member lines. */
  lemma MemberRowEncodes(members: seq<Member>, formatDate: string -> string, i: int)
    requires 1 <= i <= |members|
    ensures EncodeRows(Rows(members, formatDate))[i] == MemberLines(members, formatDate)[i - 1]
  {
    assert Rows(members, formatDate)[i] == RecordValues(members[i - 1], formatDate);
  }

  /** The header row, escaped and joined, is the header line. */
  lemma HeaderRowEncodes()
    ensures Join(EscapeAll(HeaderValues()), ',') == HeaderLine()
  {
    HeaderNeedsNoEscaping();
  }

  /** The CSV text is the escaped rows joined by LF, the header row included. */
  lemma CsvTextEncodesRows(members: seq<Member>, formatDate: string -> string)
    ensures CsvText(members, formatDate) == Join(EncodeRows(Rows(members, formatDate)), '\n')
  {
    var encoded := EncodeRows(Rows(members, formatDate));
    var lines := [HeaderLine()] + MemberLines(members, formatDate);
    forall i | 0 <= i < |encoded|
      ensures encoded[i] == lines[i]
    {
      if i == 0 {
        HeaderRowEncodes();
      } else {
        MemberRowEncodes(members, formatDate, i);
        ConsIndex(HeaderLine(), MemberLines(members, formatDate), i);
      }
    }
    assert encoded == lines;
  }

  /** The byte order mark appears once: the CSV text after it starts with the first title. */
  lemma SingleBom(members: seq<Member>, formatDate: string -> string)
    ensures CsvContent(members, formatDate)[0] == Bom
    ensures CsvContent(members, formatDate)[1] == 'F' != Bom
  {
    assert HeaderLine() == Headers[0] + [','] + Join(Headers[1..], ',');
  }

  /** The download name, `member-verifications-<date>.csv`, from the current ISO timestamp. */
  function ExportFileName(isoTimestamp: string): (name: string)
    ensures |name| == |"member-verifications-"| + |Text.UpTo(isoTimestamp, 'T')| + |".csv"|
    ensures name[..|"member-verifications-"|] == "member-verifications-"
    ensures name[|name| - 4..] == ".csv"
  {
    "member-verifications-" + Text.UpTo(isoTimestamp, 'T') + ".csv"
  }

  /** For an ISO timestamp such as `2024-05-01T10:00:00.000Z` the name carries the calendar date. */
  lemma ExportFileNameForTimestamp(date: string, time: string)
    requires 'T' !in date
    ensures ExportFileName(date + "T" + time) == "member-verifications-" + date + ".csv"
  {
    var iso := date + "T" + time;
    var d := Text.UpTo(iso, 'T');
    assert iso[..|date|] == date && iso[|date|] == 'T';
    assert d == date;
  }

  // ---------------------------------------------------------------- the page

  /** How the `/api/members/verifications` request ended. */
  datatype MembersReply =
    | Loaded(list: seq<Member>)       // ok response, parsed body
    | NotOk                           // `!response.ok`
    | RequestFailed(error: Web.Error) // fetch or JSON parsing threw

  const FetchFailedMessage := "Failed to fetch member verifications"
  const LoadFallbackMessage := "Failed to load member verifications"

  /** One file handed to the browser: its download name and its text. */
  datatype Download = Download(name: string, content: string)

  /** The members page: the loaded list, its flags, the error banner, and the files exported. */
  class MembersPage {
    var members: seq<Member>
    var loading: bool
    var error: Option<string>
    var exporting: bool
    var downloads: seq<Download>

    constructor ()
      ensures members == [] && loading && error == None && !exporting && downloads == []
    {
      members := [];
      loading := true;
      error := None;
      exporting := false;
      downloads := [];
    }

    /**
      `fetchMembers` once its request has ended: the list on success, otherwise an error
      banner (a non-ok response has its own fixed text; a thrown error shows its message,
      or the fallback when that is empty). Loading ends either way, and a success does
      not clear an earlier banner.
    */
    method FetchMembers(reply: MembersReply)
      modifies this
      ensures !loading
      ensures reply.Loaded? ==> members == reply.list && error == old(error)
      ensures reply.NotOk? ==> members == old(members) && error == Some(FetchFailedMessage)
      ensures reply.RequestFailed? ==> members == old(members) && error == Some(Text.OrElse(Some(reply.error.message), LoadFallbackMessage))
      ensures exporting == old(exporting) && downloads == old(downloads)
    {
      loading := true;
      match reply {
        case Loaded(list) => members := list;
        case NotOk => error := Some(Text.OrElse(Some(FetchFailedMessage), LoadFallbackMessage));
        case RequestFailed(e) => error := Some(Text.OrElse(Some(e.message), LoadFallbackMessage));
      }
      loading := false;
    }

    /** The export button is disabled while exporting and when there is nothing to export. */
    predicate ExportDisabled()
      reads this
    {
      exporting || |members| == 0
    }

    /**
      `exportToExcel`: clear the banner and hand the browser one file, named after the
      date part of `isoNow` and holding the byte order mark and the CSV text of the
      loaded members.
    */
    method ExportToExcel(formatDate: string -> string, isoNow: string)
      modifies this
      ensures downloads == old(downloads) + [Download(ExportFileName(isoNow), CsvContent(members, formatDate))]
      ensures error == None && !exporting
      ensures members == old(members) && loading == old(loading)
    {
      exporting := true;
      error := None;
      var content := CsvContent(members, formatDate);
      downloads := downloads + [Download(ExportFileName(isoNow), content)];
      exporting := false;
    }
  }

  /**
    Load the members, then export: the file the browser receives reads back, under the
    rules of RFC 4180, as the header followed by the fields of every member loaded, in
    order, and is named after the day of the export.
  */
  method LoadThenExport(list: seq<Member>, formatDate: string -> string, date: string, time: string)
    returns (download: Download)
    requires 'T' !in date
    ensures download.name == "member-verifications-" + date + ".csv"
    ensures |download.content| >= 1 && download.content[0] == Bom
    ensures ParseCsv(download.content[1..]) == Some([Headers] + MemberTexts(list, formatDate))
  {
    var page := new MembersPage();
    page.FetchMembers(Loaded(list));
    page.ExportToExcel(formatDate, date + "T" + time);
    download := page.downloads[0];
    ExportFileNameForTimestamp(date, time);
    ExportRoundTrip(list, formatDate);
  }
}
