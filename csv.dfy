/** Comma-separated text as the attendance export writes it: every cell enclosed in
    double quotes with each embedded double quote doubled (the field rules 5-7 of
    section 2 of RFC 4180), cells joined by `,` and records joined by a bare line feed
    (section 2 rule 1 of RFC 4180 asks for CRLF; the export uses `\n`). A decoder for
    that text is given beside the encoder, and the two are proved inverse. */
module Csv {
  import opened Collections

  // ---------------------------------------------------------------- encoding

  /** How one character of a cell is written: a double quote twice, anything else as is. */
  function EscapeChar(ch: char): string {
    if ch == '"' then "\"\"" else [ch]
  }

  /** `String(c).replace(/"/g, '""')`: every double quote of `c` is written twice, so
      the result is longer than `c` by the number of double quotes in it. */
  function Escape(c: string): (r: string)
    ensures |r| == |c| + |Filter(c, (ch: char) => ch == '"')|
  {
    if c == [] then [] else EscapeChar(c[0]) + Escape(c[1..])
  }

  /** One cell as written to the file: enclosed in double quotes. */
  function QuoteCell(c: string): string {
    "\"" + Escape(c) + "\""
  }

  /** `parts.join(sep)`. */
  function Join(parts: seq<string>, sep: string): string {
    if parts == [] then ""
    else if |parts| == 1 then parts[0]
    else parts[0] + sep + Join(parts[1..], sep)
  }

  /** `cells.map(quote)`. */
  function QuoteAll(cells: seq<string>): (r: seq<string>)
    ensures |r| == |cells|
  {
    if cells == [] then [] else [QuoteCell(cells[0])] + QuoteAll(cells[1..])
  }

  /** One record: its quoted cells joined by commas. */
  function EncodeRecord(cells: seq<string>): string {
    Join(QuoteAll(cells), ",")
  }

  /** `rows.map(encodeRecord)`. */
  function EncodeAll(rows: seq<seq<string>>): (r: seq<string>)
    ensures |r| == |rows|
  {
    if rows == [] then [] else [EncodeRecord(rows[0])] + EncodeAll(rows[1..])
  }

  /** The whole file: its records joined by line feeds, with no line feed at the end. */
  function Encode(rows: seq<seq<string>>): string {
    Join(EncodeAll(rows), "\n")
  }

  // ---------------------------------------------------------------- decoding

  /** Reads the body of a quoted field, `s` being the text after its opening quote: a
      doubled quote stands for one quote and a single quote closes the field. Gives the
      field and the text after the closing quote, or None when no quote closes it. */
  function ParseField(s: string): (r: Option<(string, string)>)
    ensures r.Some? ==> |r.value.1| < |s|
  {
    if s == [] then None
    else if s[0] == '"' then
      if |s| >= 2 && s[1] == '"' then
        match ParseField(s[2..])
        case None => None
        case Some((f, rest)) => Some(("\"" + f, rest))
      else Some(("", s[1..]))
    else
      match ParseField(s[1..])
      case None => None
      case Some((f, rest)) => Some(([s[0]] + f, rest))
  }

  /** Reads one record: quoted fields separated by commas, up to a line feed or the end
      of the text. Gives the fields and the text from that line feed on. */
  function ParseRecord(s: string): (r: Option<(seq<string>, string)>)
    ensures r.Some? ==> |r.value.1| < |s|
    ensures r.Some? ==> r.value.1 == [] || r.value.1[0] == '\n'
    decreases |s|
  {
    if s == [] || s[0] != '"' then None
    else
      match ParseField(s[1..])
      case None => None
      case Some((f, rest)) =>
        if rest != [] && rest[0] == ',' then
          match ParseRecord(rest[1..])
          case None => None
          case Some((fs, rest')) => Some(([f] + fs, rest'))
        else if rest == [] || rest[0] == '\n' then Some(([f], rest))
        else None
  }

  /** Reads a whole file: records separated by single line feeds. */
  function Parse(s: string): (r: Option<seq<seq<string>>>)
    decreases |s|
  {
    match ParseRecord(s)
    case None => None
    case Some((fields, rest)) =>
      if rest == [] then Some([fields])
      else
        match Parse(rest[1..])
        case None => None
        case Some(rows) => Some([fields] + rows)
  }

  /** Removes the quoting from one written cell. */
  function Unquote(cell: string): Option<string> {
    if cell == [] || cell[0] != '"' then None
    else
      match ParseField(cell[1..])
      case Some((f, rest)) => if rest == [] then Some(f) else None
      case None => None
  }

  // ---------------------------------------------------------------- round trip

  /** A cell without double quotes is written verbatim between the enclosing quotes. */
  lemma {:induction false} EscapePlain(c: string)
    requires forall i :: 0 <= i < |c| ==> c[i] != '"'
    ensures Escape(c) == c
  {
    if c != [] {
      EscapePlain(c[1..]);
      assert c == [c[0]] + c[1..];
    }
  }

  lemma AppendAssoc(a: string, b: string, c: string)
    ensures (a + b) + c == a + (b + c)
  {
  }

  /** A single quote closes a field unless another quote follows it. */
  lemma ParseFieldClose(rest: string)
    requires rest == [] || rest[0] != '"'
    ensures ParseField("\"" + rest) == Some(("", rest))
  {
    assert ("\"" + rest)[1..] == rest;
  }

  /** Reading one written character of a field gives that character back. */
  lemma ParseFieldChar(ch: char, tail: string, f: string, rest: string)
    requires ParseField(tail) == Some((f, rest))
    ensures ParseField(EscapeChar(ch) + tail) == Some(([ch] + f, rest))
  {
    if ch == '"' {
      assert ("\"\"" + tail)[2..] == tail;
    } else {
      assert ([ch] + tail)[1..] == tail;
    }
  }

  /** Reading an escaped field back, when the character after the closing quote is not
      itself a quote, gives the field and leaves what follows untouched. */
  lemma {:induction false} ParseFieldEscape(c: string, rest: string)
    requires rest == [] || rest[0] != '"'
    ensures ParseField(Escape(c) + ("\"" + rest)) == Some((c, rest))
  {
    if c == [] {
      assert Escape(c) + ("\"" + rest) == "\"" + rest;
      ParseFieldClose(rest);
    } else {
      var closing := "\"" + rest;
      ParseFieldEscape(c[1..], rest);
      AppendAssoc(EscapeChar(c[0]), Escape(c[1..]), closing);
      ParseFieldChar(c[0], Escape(c[1..]) + closing, c[1..], rest);
      assert [c[0]] + c[1..] == c;
    }
  }

  /** Unquoting a written cell recovers the original field. */
  lemma UnquoteQuoteCell(c: string)
    ensures Unquote(QuoteCell(c)) == Some(c)
  {
    var body := Escape(c) + ("\"" + []);
    QuoteCellAppend(c, []);
    ParseFieldEscape(c, []);
    assert QuoteCell(c) + [] == QuoteCell(c);
    assert ("\"" + body)[1..] == body;
  }

  /** A record of at least two cells is its first quoted cell, a comma, and the rest. */
  lemma EncodeRecordCons(cells: seq<string>)
    requires |cells| >= 2
    ensures EncodeRecord(cells) == QuoteCell(cells[0]) + "," + EncodeRecord(cells[1..])
  {
    assert QuoteAll(cells)[1..] == QuoteAll(cells[1..]);
  }

  /** A written cell followed by more text is an opening quote, the escaped cell, the
      closing quote and that text. */
  lemma QuoteCellAppend(c: string, tail: string)
    ensures QuoteCell(c) + tail == "\"" + (Escape(c) + ("\"" + tail))
  {
    AppendAssoc("\"" + Escape(c), "\"", tail);
    AppendAssoc("\"", Escape(c), "\"" + tail);
  }

  /** A record of one cell is that cell, quoted. */
  lemma EncodeRecordSingle(cells: seq<string>)
    requires |cells| == 1
    ensures EncodeRecord(cells) == QuoteCell(cells[0])
    ensures cells == [cells[0]]
  {
    assert cells[1..] == [];
  }

  /** A record of at least two cells followed by more text is its first quoted cell,
      a comma, and the rest of the record followed by that text. */
  lemma EncodeRecordConsAppend(cells: seq<string>, rest: string)
    requires |cells| >= 2
    ensures EncodeRecord(cells) + rest == QuoteCell(cells[0]) + ("," + (EncodeRecord(cells[1..]) + rest))
  {
    EncodeRecordCons(cells);
    AppendAssoc(QuoteCell(cells[0]) + ",", EncodeRecord(cells[1..]), rest);
    AppendAssoc(QuoteCell(cells[0]), ",", EncodeRecord(cells[1..]) + rest);
  }

  /** A quoted cell followed by a line feed or by the end of the text is read as a
      record of that one cell. */
  lemma ParseRecordLast(c: string, rest: string)
    requires rest == [] || rest[0] == '\n'
    ensures ParseRecord(QuoteCell(c) + rest) == Some(([c], rest))
  {
    var body := Escape(c) + ("\"" + rest);
    QuoteCellAppend(c, rest);
    ParseFieldEscape(c, rest);
    assert ("\"" + body)[1..] == body;
  }

  /** A quoted cell followed by a comma starts a record whose remaining cells are read
      from the text after the comma. */
  lemma ParseRecordComma(c: string, more: string, cells: seq<string>, rest: string)
    requires ParseRecord(more) == Some((cells, rest))
    ensures ParseRecord(QuoteCell(c) + ("," + more)) == Some(([c] + cells, rest))
  {
    var tail := "," + more;
    var body := Escape(c) + ("\"" + tail);
    QuoteCellAppend(c, tail);
    ParseFieldEscape(c, tail);
    assert ("\"" + body)[1..] == body;
    assert tail[1..] == more;
  }

  /** Reading back one encoded record that is followed by a line feed or the end of the
      text gives its cells and leaves the rest untouched. */
  lemma {:induction false} ParseRecordEncode(cells: seq<string>, rest: string)
    requires cells != []
    requires rest == [] || rest[0] == '\n'
    ensures ParseRecord(EncodeRecord(cells) + rest) == Some((cells, rest))
  {
    var c := cells[0];
    if |cells| == 1 {
      EncodeRecordSingle(cells);
      ParseRecordLast(c, rest);
    } else {
      var more := EncodeRecord(cells[1..]) + rest;
      EncodeRecordConsAppend(cells, rest);
      ParseRecordEncode(cells[1..], rest);
      ParseRecordComma(c, more, cells[1..], rest);
      assert [c] + cells[1..] == cells;
    }
  }

  /** Decoding the encoded file gives back every record, in order, provided there is
      at least one record and no record is empty (an empty record would write nothing). */
  lemma {:induction false} ParseEncode(rows: seq<seq<string>>)
    requires rows != []
    requires forall i :: 0 <= i < |rows| ==> rows[i] != []
    ensures Parse(Encode(rows)) == Some(rows)
  {
    if |rows| == 1 {
      assert Encode(rows) == EncodeRecord(rows[0]) + [];
      ParseRecordEncode(rows[0], []);
      assert rows == [rows[0]];
    } else {
      assert EncodeAll(rows)[1..] == EncodeAll(rows[1..]);
      var more := Encode(rows[1..]);
      assert Encode(rows) == EncodeRecord(rows[0]) + ("\n" + more);
      ParseRecordEncode(rows[0], "\n" + more);
      ParseEncode(rows[1..]);
      assert ("\n" + more)[1..] == more;
      assert [rows[0]] + rows[1..] == rows;
    }
  }
}
