/** The comma-separated text both export services write: the field escaping
    of `escapeCSV` and a reader for what it writes. A field that holds a
    comma, a double quote or a line feed is written between double quotes
    with every inner double quote doubled, as in rules 6 and 7 of section 2
    of RFC 4180; records are separated by a bare line feed rather than
    CRLF, and a carriage return alone does not make a field quoted. The
    reader is the partner of the writer: it reads every written document
    back into the values it was written from. */
module Csv {
  import opened Wrappers
  import opened Text

  /** The error both export services raise when the export flag is off. */
  const DisabledMessage: string := "Export service is disabled"

  /** The column names of an export, in order. */
  const Header: seq<string> :=
    ["ID", "Title", "Company", "Location", "Skills", "Salary Min", "Salary Max", "Created At"]

  /** `n?.toString() || ''`: the decimal form of a present number (never
      empty, so 0 is written "0"), nothing for an absent one. It never
      needs quoting. */
  function SalaryText(n: Option<int>): (s: string)
    ensures s == "" <==> n.None?
    ensures n.Some? ==> forall i :: 0 <= i < |s| ==> s[i] == '-' || '0' <= s[i] <= '9'
    ensures !NeedsQuoting(s)
  {
    if n.Some? then IntToString(n.value) else ""
  }

  /** Whether `escapeCSV` puts the value between quotes. */
  predicate NeedsQuoting(v: string) {
    ',' in v || '"' in v || '\n' in v
  }

  /** `v.replace(/"/g, '""')`. */
  function DoubleQuotes(v: string): (r: string)
    ensures |r| == |v| + Occurrences(v, '"')
    decreases |v|
  {
    if |v| == 0 then ""
    else (if v[0] == '"' then "\"\"" else [v[0]]) + DoubleQuotes(v[1..])
  }

  /** `escapeCSV`: the value itself when it needs no quoting; otherwise the
      value with its double quotes doubled, between double quotes. */
  function EscapeCsv(v: string): (r: string)
    ensures r == v <==> !NeedsQuoting(v)
    ensures NeedsQuoting(v) ==>
              |r| == |v| + Occurrences(v, '"') + 2 && r[0] == '"' && r[|r| - 1] == '"'
  {
    if NeedsQuoting(v) then "\"" + DoubleQuotes(v) + "\"" else v
  }

  /** Every double quote in `s` is the first of a pair `""`. */
  predicate QuotesPaired(s: string)
    decreases |s|
  {
    if |s| == 0 then true
    else if s[0] == '"' then |s| >= 2 && s[1] == '"' && QuotesPaired(s[2..])
    else QuotesPaired(s[1..])
  }

  /** Between the outer quotes of an escaped field, double quotes only
      come in pairs, so none of them can be taken for the closing one. */
  lemma {:induction false} DoubledQuotesPaired(v: string)
    ensures QuotesPaired(DoubleQuotes(v))
    decreases |v|
  {
    if |v| > 0 {
      DoubledQuotesPaired(v[1..]);
      var rest := DoubleQuotes(v[1..]);
      if v[0] == '"' {
        assert ("\"\"" + rest)[2..] == rest;
      } else {
        assert ([v[0]] + rest)[1..] == rest;
      }
    }
  }

  /** Reads the inside of a quoted field, from just after its opening
      quote: `""` stands for `"`, and a lone `"` closes the field. The
      result is the value and the text after the closing quote, or `None`
      when the field never closes. */
  function ParseQuoted(s: string): (r: Option<(string, string)>)
    ensures r.Some? ==> |r.value.1| < |s|
    decreases |s|
  {
    if |s| == 0 then None
    else if s[0] == '"' then
      if |s| >= 2 && s[1] == '"' then
        match ParseQuoted(s[2..])
        case None => None
        case Some((v, rest)) => Some(("\"" + v, rest))
      else Some(("", s[1..]))
    else
      match ParseQuoted(s[1..])
      case None => None
      case Some((v, rest)) => Some(([s[0]] + v, rest))
  }

  /** Reads an unquoted field: everything up to the next comma or line
      feed. */
  function ParseBare(s: string): (r: (string, string))
    ensures |r.1| <= |s|
    decreases |s|
  {
    if |s| == 0 || s[0] == ',' || s[0] == '\n' then ("", s)
    else
      var (v, rest) := ParseBare(s[1..]);
      ([s[0]] + v, rest)
  }

  /** Reads one field, quoted or not, and returns it with the text after
      it. */
  function ParseField(s: string): (r: Option<(string, string)>)
    ensures r.Some? ==> |r.value.1| <= |s|
  {
    if |s| > 0 && s[0] == '"' then ParseQuoted(s[1..]) else Some(ParseBare(s))
  }

  /** Reads the comma-separated fields of one record, up to a line feed or
      the end of the text. */
  function ParseRecord(s: string): (r: Option<(seq<string>, string)>)
    ensures r.Some? ==> |r.value.0| >= 1 && |r.value.1| <= |s|
    decreases |s|
  {
    match ParseField(s)
    case None => None
    case Some((field, rest)) =>
      if |rest| > 0 && rest[0] == ',' then
        match ParseRecord(rest[1..])
        case None => None
        case Some((fields, rest')) => Some(([field] + fields, rest'))
      else Some(([field], rest))
  }

  /** Reads a whole document: records separated by line feeds. */
  function ParseDocument(s: string): (r: Option<seq<seq<string>>>)
    ensures r.Some? ==> |r.value| >= 1
    decreases |s|
  {
    match ParseRecord(s)
    case None => None
    case Some((fields, rest)) =>
      if |rest| == 0 then Some([fields])
      else if rest[0] == '\n' then
        match ParseDocument(rest[1..])
        case None => None
        case Some(records) => Some([fields] + records)
      else None
  }

  function EscapeAll(fields: seq<string>): (r: seq<string>)
    ensures |r| == |fields|
    ensures forall i :: 0 <= i < |r| ==> r[i] == EscapeCsv(fields[i])
  {
    seq(|fields|, i requires 0 <= i < |fields| => EscapeCsv(fields[i]))
  }

  /** The line of a record whose every field is escaped. */
  function RecordText(fields: seq<string>): string {
    Join(EscapeAll(fields), ",")
  }

  function RecordTexts(records: seq<seq<string>>): (r: seq<string>)
    ensures |r| == |records|
    ensures forall i :: 0 <= i < |r| ==> r[i] == RecordText(records[i])
  {
    seq(|records|, i requires 0 <= i < |records| => RecordText(records[i]))
  }

  /** The document of records whose every field is escaped, one record per
      line. */
  function DocumentText(records: seq<seq<string>>): string {
    Join(RecordTexts(records), "\n")
  }

  /** An escaped value is read back as the value, whatever comes after it
      (when that is a field or record separator or nothing). */
  lemma FieldRoundTrip(v: string, t: string)
    requires t == [] || t[0] == ',' || t[0] == '\n'
    ensures ParseField(EscapeCsv(v) + t) == Some((v, t))
  {
    if NeedsQuoting(v) {
      QuotedFieldRoundTrip(v, t);
    } else {
      BareFieldRoundTrip(v, t);
    }
  }

  lemma QuotedFieldRoundTrip(v: string, t: string)
    requires NeedsQuoting(v)
    requires t == [] || t[0] == ',' || t[0] == '\n'
    ensures ParseField(EscapeCsv(v) + t) == Some((v, t))
  {
    var s := EscapeCsv(v) + t;
    var inner := DoubleQuotes(v) + "\"" + t;
    assert s == "\"" + inner;
    assert s[0] == '"' && s[1..] == inner;
    QuotedRoundTrip(v, t);
  }

  lemma BareFieldRoundTrip(v: string, t: string)
    requires !NeedsQuoting(v)
    requires t == [] || t[0] == ',' || t[0] == '\n'
    ensures ParseField(EscapeCsv(v) + t) == Some((v, t))
  {
    var s := EscapeCsv(v) + t;
    assert s == v + t;
    assert |v| > 0 ==> v[0] in v && s[0] == v[0];
    assert |v| == 0 ==> s == t;
    BareRoundTrip(v, t);
  }

  lemma {:induction false} QuotedRoundTrip(v: string, t: string)
    requires t == [] || t[0] != '"'
    ensures ParseQuoted(DoubleQuotes(v) + "\"" + t) == Some((v, t))
    decreases |v|
  {
    var s := DoubleQuotes(v) + "\"" + t;
    if |v| == 0 {
      assert s == "\"" + t;
    } else {
      QuotedRoundTrip(v[1..], t);
      var tail := DoubleQuotes(v[1..]) + "\"" + t;
      if v[0] == '"' {
        assert s == "\"\"" + tail;
        ParseQuotedPair(tail, v[1..], t);
        assert v == "\"" + v[1..];
      } else {
        assert s == [v[0]] + tail;
        ParseQuotedChar(v[0], tail, v[1..], t);
        assert v == [v[0]] + v[1..];
      }
    }
  }

  /** A doubled quote inside a quoted field is read as one quote. */
  lemma ParseQuotedPair(tail: string, v: string, t: string)
    requires ParseQuoted(tail) == Some((v, t))
    ensures ParseQuoted("\"\"" + tail) == Some(("\"" + v, t))
  {
    assert ("\"\"" + tail)[2..] == tail;
  }

  /** Any other character inside a quoted field is read as itself. */
  lemma ParseQuotedChar(c: char, tail: string, v: string, t: string)
    requires c != '"'
    requires ParseQuoted(tail) == Some((v, t))
    ensures ParseQuoted([c] + tail) == Some(([c] + v, t))
  {
    assert ([c] + tail)[1..] == tail;
  }

  lemma {:induction false} BareRoundTrip(v: string, t: string)
    requires ',' !in v && '\n' !in v
    requires t == [] || t[0] == ',' || t[0] == '\n'
    ensures ParseBare(v + t) == (v, t)
    decreases |v|
  {
    if |v| == 0 {
      assert v + t == t;
    } else {
      BareRoundTrip(v[1..], t);
      assert (v + t)[1..] == v[1..] + t;
      assert v[0] in v;
      assert v == [v[0]] + v[1..];
    }
  }

  /** A record's line is read back as its fields, when a line feed or the
      end of the text follows it. */
  lemma {:induction false} RecordRoundTrip(fields: seq<string>, t: string)
    requires |fields| >= 1
    requires t == [] || t[0] == '\n'
    ensures ParseRecord(RecordText(fields) + t) == Some((fields, t))
    decreases |fields|
  {
    if |fields| == 1 {
      assert RecordText(fields) == EscapeAll(fields)[0];
      FieldRoundTrip(fields[0], t);
      assert fields == [fields[0]];
    } else {
      var tail := RecordText(fields[1..]) + t;
      RecordTextCons(fields);
      assert RecordText(fields) + t == EscapeCsv(fields[0]) + ("," + tail);
      FieldRoundTrip(fields[0], "," + tail);
      RecordRoundTrip(fields[1..], t);
      ParseRecordCons(RecordText(fields) + t, fields[0], tail, fields[1..], t);
      assert fields == [fields[0]] + fields[1..];
    }
  }

  /** A record of two fields or more is its first field, a comma and the
      rest of the record. */
  lemma RecordTextCons(fields: seq<string>)
    requires |fields| >= 2
    ensures RecordText(fields) == EscapeCsv(fields[0]) + "," + RecordText(fields[1..])
  {
    assert EscapeAll(fields[1..]) == EscapeAll(fields)[1..];
  }

  /** A field followed by a comma and a record is read as one record. */
  lemma ParseRecordCons(s: string, field: string, tail: string, fields: seq<string>, t: string)
    requires ParseField(s) == Some((field, "," + tail))
    requires ParseRecord(tail) == Some((fields, t))
    ensures ParseRecord(s) == Some(([field] + fields, t))
  {
    assert ("," + tail)[1..] == tail;
  }

  /** A document is read back as its records. */
  lemma {:induction false} DocumentRoundTrip(records: seq<seq<string>>)
    requires |records| >= 1
    requires forall i :: 0 <= i < |records| ==> |records[i]| >= 1
    ensures ParseDocument(DocumentText(records)) == Some(records)
    decreases |records|
  {
    if |records| == 1 {
      assert DocumentText(records) == RecordTexts(records)[0];
      RecordRoundTrip(records[0], "");
      assert RecordText(records[0]) + "" == RecordText(records[0]);
      assert records == [records[0]];
    } else {
      var tail := DocumentText(records[1..]);
      DocumentTextCons(records);
      RecordRoundTrip(records[0], "\n" + tail);
      DocumentRoundTrip(records[1..]);
      ParseDocumentCons(DocumentText(records), records[0], tail, records[1..]);
      assert records == [records[0]] + records[1..];
    }
  }

  /** A document of two records or more is its first line, a line feed
      and the rest of the document. */
  lemma DocumentTextCons(records: seq<seq<string>>)
    requires |records| >= 2
    ensures DocumentText(records) == RecordText(records[0]) + ("\n" + DocumentText(records[1..]))
  {
    assert RecordTexts(records[1..]) == RecordTexts(records)[1..];
  }

  /** A record followed by a line feed and a document is read as one
      document. */
  lemma ParseDocumentCons(s: string, fields: seq<string>, tail: string, records: seq<seq<string>>)
    requires ParseRecord(s) == Some((fields, "\n" + tail))
    requires ParseDocument(tail) == Some(records)
    ensures ParseDocument(s) == Some([fields] + records)
  {
    assert ("\n" + tail)[1..] == tail;
  }

  /** No column name needs quoting, so the header line is the names joined
      by commas. */
  lemma HeaderText()
    ensures RecordText(Header) == Join(Header, ",")
  {
    assert !NeedsQuoting(Header[0]);
    assert !NeedsQuoting(Header[1]);
    assert !NeedsQuoting(Header[2]);
    assert !NeedsQuoting(Header[3]);
    assert !NeedsQuoting(Header[4]);
    assert !NeedsQuoting(Header[5]);
    assert !NeedsQuoting(Header[6]);
    assert !NeedsQuoting(Header[7]);
    assert EscapeAll(Header) == Header;
  }

  /** The header line followed by the lines of some records is the text
      of the header record followed by those records. */
  lemma HeaderThenRecords(header: string, lines: seq<string>, records: seq<seq<string>>)
    requires header == Join(Header, ",")
    requires |records| == |lines| + 1 && records[0] == Header
    requires forall i :: 0 <= i < |lines| ==> lines[i] == RecordText(records[i + 1])
    ensures [header] + lines == RecordTexts(records)
  {
    HeaderText();
    FirstThenRest(header, lines, records);
  }

  /** A first line that is the text of the first record, followed by the
      texts of the others, is the text of all the records. */
  lemma FirstThenRest(first: string, lines: seq<string>, records: seq<seq<string>>)
    requires |records| == |lines| + 1 && first == RecordText(records[0])
    requires forall i :: 0 <= i < |lines| ==> lines[i] == RecordText(records[i + 1])
    ensures [first] + lines == RecordTexts(records)
  {
    var texts := RecordTexts(records);
    forall i | 0 <= i < |texts|
      ensures ([first] + lines)[i] == texts[i]
    {
      if i > 0 {
        assert ([first] + lines)[i] == lines[i - 1];
      }
    }
  }
}
