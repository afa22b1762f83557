/**
The CSV export of the portal, and a reader written from section 2 of RFC 4180.
*/
module Csv {
  import opened Wrappers

  const BOM: char := '\U{FEFF}'
  const CRLF: string := "\r\n"

  // ----- the printer -----

  predicate Special(c: char) {
    c == '"' || c == ',' || c == '\r' || c == '\n'
  }

  predicate NeedsQuotes(text: string) {
    text != "" && (Special(text[0]) || NeedsQuotes(text[1..]))
  }

  /** Every quote doubled. */
  function Doubled(text: string): string {
    if text == "" then ""
    else (if text[0] == '"' then "\"\"" else [text[0]]) + Doubled(text[1..])
  }

  function CsvField(text: string): string {
    if NeedsQuotes(text) then "\"" + Doubled(text) + "\"" else text
  }

  function CsvLine(row: seq<string>): string {
    if row == [] then ""
    else if |row| == 1 then CsvField(row[0])
    else CsvField(row[0]) + "," + CsvLine(row[1..])
  }

  function CsvLines(rows: seq<seq<string>>): string {
    if |rows| == 0 then ""
    else if |rows| == 1 then CsvLine(rows[0])
    else CsvLine(rows[0]) + CRLF + CsvLines(rows[1..])
  }

  function ToCsv(header: seq<string>, rows: seq<seq<string>>): string {
    [BOM] + CsvLines([header] + rows) + CRLF
  }

  // ----- the reader -----

  /** What was read and the text that is left. */
  datatype Read<T> = Read(value: T, rest: string)

  /** escaped, after its opening quote: everything up to the closing quote, a doubled quote standing
      for a quote. No value when the closing quote is missing. */
  function ReadEscaped(s: string): (r: Option<Read<string>>)
    ensures r.Some? ==> |r.value.rest| < |s|
  {
    if s == "" then None
    else if s[0] != '"' then
      var r := ReadEscaped(s[1..]);
      if r.None? then None else Some(Read([s[0]] + r.value.value, r.value.rest))
    else if |s| > 1 && s[1] == '"' then
      var r := ReadEscaped(s[2..]);
      if r.None? then None else Some(Read("\"" + r.value.value, r.value.rest))
    else Some(Read("", s[1..]))
  }

  /** non-escaped: characters that are neither comma, quote, CR nor LF. */
  function ReadPlain(s: string): (r: Read<string>)
    ensures |r.rest| <= |s|
  {
    if s == "" || Special(s[0]) then Read("", s)
    else
      var r := ReadPlain(s[1..]);
      Read([s[0]] + r.value, r.rest)
  }

  function ReadField(s: string): (r: Option<Read<string>>)
    ensures r.Some? ==> |r.value.rest| <= |s|
  {
    if s != "" && s[0] == '"' then ReadEscaped(s[1..]) else Some(ReadPlain(s))
  }

  /** record = field *(COMMA field) */
  function ReadRecord(s: string): (r: Option<Read<seq<string>>>)
    ensures r.Some? ==> |r.value.rest| <= |s| && r.value.value != []
    decreases |s|
  {
    var f := ReadField(s);
    if f.None? then None
    else if f.value.rest != "" && f.value.rest[0] == ',' then
      var r := ReadRecord(f.value.rest[1..]);
      if r.None? then None else Some(Read([f.value.value] + r.value.value, r.value.rest))
    else Some(Read([f.value.value], f.value.rest))
  }

  /** file = record *(CRLF record) [CRLF] */
  function ReadFile(s: string): Option<seq<seq<string>>>
    decreases |s|
  {
    var r := ReadRecord(s);
    if r.None? then None
    else
      var rest := r.value.rest;
      if rest == "" || rest == CRLF then Some([r.value.value])
      else if CRLF <= rest then
        var more := ReadFile(rest[2..]);
        if more.None? then None else Some([r.value.value] + more.value)
      else None
  }

  // ----- the round trip -----

  /** What may follow a field: the end of the text, a comma, or a line break. */
  predicate Ends(s: string) {
    s == "" || s[0] == ',' || s[0] == '\r'
  }

  lemma {:induction false} DoubledReads(text: string, rest: string)
    requires rest == "" || rest[0] != '"'
    ensures ReadEscaped(Doubled(text) + "\"" + rest) == Some(Read(text, rest))
  {
    var s := Doubled(text) + "\"" + rest;
    if text == "" {
      assert s == "\"" + rest && s[1..] == rest;
    } else {
      DoubledReads(text[1..], rest);
      var tail := Doubled(text[1..]) + "\"" + rest;
      assert text == [text[0]] + text[1..];
      if text[0] == '"' {
        assert s == "\"\"" + tail && s[2..] == tail;
      } else {
        assert s == [text[0]] + tail && s[1..] == tail;
      }
    }
  }

  lemma {:induction false} PlainReads(text: string, rest: string)
    requires !NeedsQuotes(text) && Ends(rest)
    ensures ReadPlain(text + rest) == Read(text, rest)
  {
    if text == "" {
      assert text + rest == rest;
    } else {
      PlainReads(text[1..], rest);
      assert (text + rest)[1..] == text[1..] + rest;
      assert text == [text[0]] + text[1..];
    }
  }

  lemma FieldReads(text: string, rest: string)
    requires Ends(rest)
    ensures ReadField(CsvField(text) + rest) == Some(Read(text, rest))
  {
    if NeedsQuotes(text) {
      var s := "\"" + Doubled(text) + "\"" + rest;
      DoubledReads(text, rest);
      assert s[0] == '"' && s[1..] == Doubled(text) + "\"" + rest;
    } else {
      PlainReads(text, rest);
      var s := text + rest;
      if text == "" {
        assert s == rest;
      } else {
        assert s[0] == text[0] && !Special(text[0]);
      }
    }
  }

  lemma {:induction false} NeedsQuotesMeans(text: string)
    ensures NeedsQuotes(text) <==> exists i :: 0 <= i < |text| && text[i] in "\",\r\n"
  {
    if text != "" {
      NeedsQuotesMeans(text[1..]);
      assert forall i :: 0 < i < |text| ==> text[i] == text[1..][i - 1];
      if i :| 0 <= i < |text[1..]| && text[1..][i] in "\",\r\n" {
        assert text[i + 1] in "\",\r\n";
      }
    }
  }

  /** Quotes are used exactly for the texts that have a quote, a comma, or a line break in them, and any other text
      is printed as it is. */
  lemma QuotedIffSpecial(text: string)
    ensures (exists i :: 0 <= i < |text| && text[i] in "\",\r\n") ==>
              CsvField(text) == "\"" + Doubled(text) + "\""
    ensures !(exists i :: 0 <= i < |text| && text[i] in "\",\r\n") ==> CsvField(text) == text
  {
    NeedsQuotesMeans(text);
  }

  lemma {:induction false} LineReads(row: seq<string>, rest: string)
    requires row != [] && (rest == "" || rest[0] == '\r')
    ensures ReadRecord(CsvLine(row) + rest) == Some(Read(row, rest))
  {
    if |row| == 1 {
      FieldReads(row[0], rest);
      assert row == [row[0]];
    } else {
      var tail := CsvLine(row[1..]) + rest;
      assert CsvLine(row) + rest == CsvField(row[0]) + ("," + tail);
      FieldReads(row[0], "," + tail);
      assert ("," + tail)[1..] == tail;
      LineReads(row[1..], rest);
      assert row == [row[0]] + row[1..];
    }
  }

  ghost predicate AllHaveFields(rows: seq<seq<string>>) {
    forall i :: 0 <= i < |rows| ==> rows[i] != []
  }

  lemma {:induction false} LinesRead(rows: seq<seq<string>>)
    requires rows != [] && AllHaveFields(rows)
    ensures ReadFile(CsvLines(rows) + CRLF) == Some(rows)
  {
    if |rows| == 1 {
      LineReads(rows[0], CRLF);
      assert rows == [rows[0]];
    } else {
      var tail := CsvLines(rows[1..]) + CRLF;
      assert CsvLines(rows) + CRLF == CsvLine(rows[0]) + (CRLF + tail);
      LineReads(rows[0], CRLF + tail);
      LinesRead(rows[1..]);
      assert tail[|tail| - 1] == '\n';
      assert rows == [rows[0]] + rows[1..];
    }
  }

  /** The reader never returns a record without fields. */
  lemma {:induction false} NoEmptyRecord(s: string)
    requires ReadFile(s).Some?
    ensures AllHaveFields(ReadFile(s).value)
    decreases |s|
  {
    var rest := ReadRecord(s).value.rest;
    if rest != "" && rest != CRLF {
      NoEmptyRecord(rest[2..]);
    }
  }

  /** Reading what was printed, after the byte order mark, gives back the header and the rows, for
      all field contents, exactly when the header and every row have at least one field. */
  lemma RoundTrip(header: seq<string>, rows: seq<seq<string>>)
    ensures ToCsv(header, rows)[0] as int == 0xFEFF
    ensures ReadFile(ToCsv(header, rows)[1..]) == Some([header] + rows) <==> header != [] && AllHaveFields(rows)
  {
    var all := [header] + rows;
    assert all[0] == header && all[1..] == rows;
    assert AllHaveFields(all) <==> header != [] && AllHaveFields(rows) by {
      assert forall i :: 0 <= i < |rows| ==> all[i + 1] == rows[i];
    }
    var s := CsvLines(all) + CRLF;
    assert ToCsv(header, rows)[1..] == s;
    if AllHaveFields(all) {
      LinesRead(all);
    } else if ReadFile(s) == Some(all) {
      NoEmptyRecord(s);
    }
  }
}
