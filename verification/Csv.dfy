/** The web application's CSV export, and a decoder that inverts it. */
module Csv {

  /** A value of a row: null or undefined, or anything else by its string form. */
  datatype Cell = Null | Text(text: string)

  datatype Column = Column(key: string, title: string)

  type Row = map<string, Cell>

  const BYTE_ORDER_MARK := '\U{FEFF}'

  // ---------------------------------------------------------------- the export

  function Join(parts: seq<string>, separator: string): string {
    if parts == [] then ""
    else if |parts| == 1 then parts[0]
    else parts[0] + (separator + Join(parts[1..], separator))
  }

  function DoubleQuotes(s: string): string {
    if s == "" then "" else (if s[0] == '"' then "\"\"" else [s[0]]) + DoubleQuotes(s[1..])
  }

  predicate NeedsQuotes(s: string) {
    ',' in s || '"' in s || '\n' in s
  }

  function Quoted(s: string): string {
    if NeedsQuotes(s) then "\"" + (DoubleQuotes(s) + "\"") else s
  }

  /** The text of a row in a column. */
  function CellText(row: Row, c: Column): string {
    if c.key in row && row[c.key].Text? then row[c.key].text else ""
  }

  function Labels(columns: seq<Column>): (labels: seq<string>)
    ensures |labels| == |columns|
  {
    seq(|columns|, i requires 0 <= i < |columns| => columns[i].title)
  }

  function Texts(row: Row, columns: seq<Column>): (texts: seq<string>)
    ensures |texts| == |columns|
  {
    seq(|columns|, i requires 0 <= i < |columns| => CellText(row, columns[i]))
  }

  function QuotedAll(fields: seq<string>): (quoted: seq<string>)
    ensures |quoted| == |fields|
  {
    seq(|fields|, i requires 0 <= i < |fields| => Quoted(fields[i]))
  }

  function Line(fields: seq<string>): string {
    Join(QuotedAll(fields), ",")
  }

  function Lines(data: seq<Row>, columns: seq<Column>): (lines: seq<string>)
    ensures |lines| == |data|
  {
    seq(|data|, i requires 0 <= i < |data| => Line(Texts(data[i], columns)))
  }

  /** The file: a byte order mark, the labels as they are, and one line per row. */
  function Export(data: seq<Row>, columns: seq<Column>): string {
    [BYTE_ORDER_MARK] + Join([Join(Labels(columns), ",")] + Lines(data, columns), "\n")
  }

  // ---------------------------------------------------------------- the decoder

  /** A decoded part and what follows it. */
  datatype Decoded<T> = Decoded(value: T, rest: string) | Bad

  /** The inside of a quoted field up to its closing quote. */
  function DecodeQuoted(s: string): Decoded<string>
    decreases |s|
  {
    if s == "" then Bad
    else if s[0] != '"' then
      match DecodeQuoted(s[1..])
      case Decoded(f, rest) => Decoded([s[0]] + f, rest)
      case Bad => Bad
    else if |s| > 1 && s[1] == '"' then
      match DecodeQuoted(s[2..])
      case Decoded(f, rest) => Decoded("\"" + f, rest)
      case Bad => Bad
    else Decoded("", s[1..])
  }

  /** A field without quotes, up to a comma, a line feed or the end. */
  function DecodePlain(s: string): Decoded<string> {
    if s == "" || s[0] == ',' || s[0] == '\n' then Decoded("", s)
    else if s[0] == '"' then Bad
    else
      match DecodePlain(s[1..])
      case Decoded(f, rest) => Decoded([s[0]] + f, rest)
      case Bad => Bad
  }

  function DecodeField(s: string): Decoded<string> {
    if s != "" && s[0] == '"' then DecodeQuoted(s[1..]) else DecodePlain(s)
  }

  function DecodeRecord(s: string): Decoded<seq<string>>
    decreases |s|
  {
    match DecodeField(s)
    case Bad => Bad
    case Decoded(f, rest) =>
      if rest == "" || rest[0] == '\n' then Decoded([f], rest)
      else if rest[0] == ',' && |rest| <= |s| then
        match DecodeRecord(rest[1..])
        case Decoded(fs, rest') => Decoded([f] + fs, rest')
        case Bad => Bad
      else Bad
  }

  function DecodeRecords(s: string): Decoded<seq<seq<string>>>
    decreases |s|
  {
    match DecodeRecord(s)
    case Bad => Bad
    case Decoded(r, rest) =>
      if rest == "" then Decoded([r], "")
      else if |rest| <= |s| then
        match DecodeRecords(rest[1..])
        case Decoded(rs, rest') => Decoded([r] + rs, rest')
        case Bad => Bad
      else Bad
  }

  function Decode(file: string): Decoded<seq<seq<string>>> {
    if file != "" && file[0] == BYTE_ORDER_MARK then DecodeRecords(file[1..]) else Bad
  }

  // ---------------------------------------------------------------- the round trip

  predicate EndsField(t: string) {
    t == "" || t[0] == ',' || t[0] == '\n'
  }

  predicate EndsRecord(t: string) {
    t == "" || t[0] == '\n'
  }

  lemma {:induction false} QuotedRoundTrip(f: string, t: string)
    requires EndsField(t)
    ensures DecodeQuoted(DoubleQuotes(f) + ("\"" + t)) == Decoded(f, t)
    decreases |f|
  {
    var s := DoubleQuotes(f) + ("\"" + t);
    if f == "" {
      assert s == "\"" + t;
    } else {
      QuotedRoundTrip(f[1..], t);
      var rest := DoubleQuotes(f[1..]) + ("\"" + t);
      if f[0] == '"' {
        assert s == "\"\"" + rest;
        assert s[2..] == rest;
      } else {
        assert s == [f[0]] + rest;
        assert s[1..] == rest;
      }
      assert [f[0]] + f[1..] == f;
    }
  }

  lemma {:induction false} PlainRoundTrip(f: string, t: string)
    requires !NeedsQuotes(f) && EndsField(t)
    ensures DecodePlain(f + t) == Decoded(f, t)
    decreases |f|
  {
    if f == "" {
      assert f + t == t;
    } else {
      PlainRoundTrip(f[1..], t);
      assert (f + t)[1..] == f[1..] + t;
      assert [f[0]] + f[1..] == f;
    }
  }

  /** Any field comes back, whatever characters it holds. */
  lemma FieldRoundTrip(f: string, t: string)
    requires EndsField(t)
    ensures DecodeField(Quoted(f) + t) == Decoded(f, t)
  {
    if NeedsQuotes(f) {
      var s := Quoted(f) + t;
      assert s == "\"" + (DoubleQuotes(f) + ("\"" + t));
      assert s[1..] == DoubleQuotes(f) + ("\"" + t);
      QuotedRoundTrip(f, t);
    } else {
      PlainRoundTrip(f, t);
      if f == "" {
        assert f + t == t;
      } else {
        assert (f + t)[0] == f[0];
      }
    }
  }

  lemma JoinCons(parts: seq<string>, separator: string)
    requires |parts| > 1
    ensures Join(parts, separator) == parts[0] + (separator + Join(parts[1..], separator))
  {}

  lemma LastField(s: string, f: string, t: string)
    requires DecodeField(s) == Decoded(f, t) && EndsRecord(t)
    ensures DecodeRecord(s) == Decoded([f], t)
  {}

  lemma NextField(s: string, f: string, next: string)
    requires DecodeField(s) == Decoded(f, "," + next) && |next| < |s| && DecodeRecord(next).Decoded?
    ensures DecodeRecord(s) == Decoded([f] + DecodeRecord(next).value, DecodeRecord(next).rest)
  {
    assert ("," + next)[1..] == next;
  }

  lemma {:induction false} RecordRoundTrip(fields: seq<string>, t: string)
    requires fields != [] && EndsRecord(t)
    ensures DecodeRecord(Line(fields) + t) == Decoded(fields, t)
    decreases |fields|
  {
    hide DecodeField, DecodeRecord, Quoted;
    if |fields| == 1 {
      FieldRoundTrip(fields[0], t);
      assert fields == [fields[0]] && Line(fields) == Quoted(fields[0]);
      LastField(Line(fields) + t, fields[0], t);
    } else {
      var next := Line(fields[1..]) + t;
      assert QuotedAll(fields)[1..] == QuotedAll(fields[1..]);
      JoinCons(QuotedAll(fields), ",");
      assert Line(fields) + t == Quoted(fields[0]) + ("," + next);
      FieldRoundTrip(fields[0], "," + next);
      RecordRoundTrip(fields[1..], t);
      NextField(Line(fields) + t, fields[0], next);
      assert [fields[0]] + fields[1..] == fields;
    }
  }

  function LinesOf(records: seq<seq<string>>): (lines: seq<string>)
    ensures |lines| == |records|
  {
    seq(|records|, i requires 0 <= i < |records| => Line(records[i]))
  }

  lemma {:induction false} RecordsRoundTrip(records: seq<seq<string>>)
    requires records != [] && forall r | r in records :: r != []
    ensures DecodeRecords(Join(LinesOf(records), "\n")) == Decoded(records, "")
    decreases |records|
  {
    assert records[0] in records;
    if |records| == 1 {
      RecordRoundTrip(records[0], "");
      assert records == [records[0]] && Line(records[0]) + "" == Line(records[0]);
      assert Join(LinesOf(records), "\n") == Line(records[0]);
    } else {
      var rest := "\n" + Join(LinesOf(records[1..]), "\n");
      assert LinesOf(records)[1..] == LinesOf(records[1..]);
      JoinCons(LinesOf(records), "\n");
      RecordRoundTrip(records[0], rest);
      assert rest[1..] == Join(LinesOf(records[1..]), "\n");
      assert forall r | r in records[1..] :: r in records;
      RecordsRoundTrip(records[1..]);
      assert [records[0]] + records[1..] == records;
    }
  }

  /** The header and the texts of every row, as a decoder should find them. */
  function Contents(data: seq<Row>, columns: seq<Column>): seq<seq<string>> {
    [Labels(columns)] + seq(|data|, i requires 0 <= i < |data| => Texts(data[i], columns))
  }

  ghost predicate PlainLabels(columns: seq<Column>) {
    forall c | c in columns :: !NeedsQuotes(c.title)
  }

  lemma ExportDecodes(data: seq<Row>, columns: seq<Column>)
    requires columns != [] && PlainLabels(columns)
    ensures Decode(Export(data, columns)) == Decoded(Contents(data, columns), "")
  {
    var records := Contents(data, columns);
    assert QuotedAll(Labels(columns)) == Labels(columns);
    assert LinesOf(records) == [Join(Labels(columns), ",")] + Lines(data, columns);
    RecordsRoundTrip(records);
    assert Export(data, columns)[1..] == Join(LinesOf(records), "\n");
  }

  /** The exported file decodes to its header and every field of every row: the text a row has under the column's
      key, and nothing where it has none or null. */
  lemma ExportRoundTrip(data: seq<Row>, columns: seq<Column>)
    requires columns != [] && PlainLabels(columns)
    ensures Decode(Export(data, columns)) == Decoded(Contents(data, columns), "")
    ensures var d := Contents(data, columns);
      && |d| == |data| + 1
      && |d[0]| == |columns| && (forall j | 0 <= j < |columns| :: d[0][j] == columns[j].title)
      && forall i, j | 0 <= i < |data| && 0 <= j < |columns| ::
           |d[i + 1]| == |columns|
           && d[i + 1][j] == if columns[j].key !in data[i] || data[i][columns[j].key] == Null then ""
                             else data[i][columns[j].key].text
  {
    ExportDecodes(data, columns);
  }

  /** Only what must be quoted is: without a comma, quote or line feed in any text the file is a byte order mark, and
      then the labels and texts as they are. */
  lemma PlainExport(data: seq<Row>, columns: seq<Column>)
    requires forall i, c | 0 <= i < |data| && c in columns ::
               forall x | x in CellText(data[i], c) :: x != ',' && x != '"' && x != '\n'
    ensures Export(data, columns) == "\U{FEFF}" + Join(
              seq(|data| + 1, i requires 0 <= i <= |data| => Join(Contents(data, columns)[i], ",")), "\n")
  {
    forall i | 0 <= i < |data|
      ensures Lines(data, columns)[i] == Join(Texts(data[i], columns), ",")
    {
      forall j | 0 <= j < |columns| ensures !NeedsQuotes(Texts(data[i], columns)[j]) {
        assert columns[j] in columns;
      }
      assert QuotedAll(Texts(data[i], columns)) == Texts(data[i], columns);
    }
    assert [Join(Labels(columns), ",")] + Lines(data, columns)
        == seq(|data| + 1, i requires 0 <= i <= |data| => Join(Contents(data, columns)[i], ","));
  }

  /** So two exports are the same file only if they have the same header and the same texts. */
  lemma ExportIsInjective(data: seq<Row>, columns: seq<Column>, data': seq<Row>, columns': seq<Column>)
    requires columns != [] && PlainLabels(columns) && columns' != [] && PlainLabels(columns')
    requires Export(data, columns) == Export(data', columns')
    ensures Contents(data, columns) == Contents(data', columns')
  {
    ExportDecodes(data, columns);
    ExportDecodes(data', columns');
  }

  // ---------------------------------------------------------------- exactly when it decodes

  /** What decodes as the inside of a quoted field is the text with its quotes doubled, and a closing quote. */
  lemma {:induction false} QuotedIsCanonical(s: string)
    ensures DecodeQuoted(s).Decoded? ==> s == DoubleQuotes(DecodeQuoted(s).value) + ("\"" + DecodeQuoted(s).rest)
    decreases |s|
  {
    if s != "" {
      if s[0] != '"' {
        QuotedIsCanonical(s[1..]);
        assert s == [s[0]] + s[1..];
      } else if |s| > 1 && s[1] == '"' {
        QuotedIsCanonical(s[2..]);
        assert s == "\"\"" + s[2..];
      } else {
        assert s == "\"" + s[1..];
      }
      DoublingFirst(DecodeQuoted(s));
    }
  }

  lemma DoublingFirst(d: Decoded<string>)
    ensures d.Decoded? && d.value != "" ==>
              DoubleQuotes(d.value) == (if d.value[0] == '"' then "\"\"" else [d.value[0]]) + DoubleQuotes(d.value[1..])
  {}

  lemma NeedsQuotesCons(c: char, s: string)
    ensures NeedsQuotes([c] + s) <==> c == ',' || c == '"' || c == '\n' || NeedsQuotes(s)
  {}

  lemma {:induction false} PlainIsPlain(s: string)
    ensures DecodePlain(s).Decoded? ==>
              && s == DecodePlain(s).value + DecodePlain(s).rest
              && !NeedsQuotes(DecodePlain(s).value) && EndsField(DecodePlain(s).rest)
    decreases |s|
  {
    if !EndsField(s) && s[0] != '"' {
      PlainIsPlain(s[1..]);
      var d := DecodePlain(s[1..]);
      if d.Decoded? {
        NeedsQuotesCons(s[0], d.value);
        hide NeedsQuotes;
        assert DecodePlain(s) == Decoded([s[0]] + d.value, d.rest);
        assert s == [s[0]] + s[1..] == [s[0]] + d.value + d.rest;
      }
    } else if EndsField(s) {
      assert s == "" + s;
    }
  }

  function LeadingQuotes(s: string): nat {
    if s == "" || s[0] != '"' then 0 else 1 + LeadingQuotes(s[1..])
  }

  lemma {:induction false} LeadingOfPrefix(f: string, t: string)
    requires EndsField(t)
    ensures LeadingQuotes(f + t) == LeadingQuotes(f)
  {
    if f == "" {
      assert f + t == t;
    } else {
      LeadingOfPrefix(f[1..], t);
      assert (f + t)[1..] == f[1..] + t;
    }
  }

  lemma {:induction false} LeadingOfDoubled(f: string, t: string)
    ensures LeadingQuotes(DoubleQuotes(f) + t) >= 2 * LeadingQuotes(f)
  {
    if f != "" && f[0] == '"' {
      LeadingOfDoubled(f[1..], t);
      var s, rest := DoubleQuotes(f) + t, DoubleQuotes(f[1..]) + t;
      assert s == "\"\"" + rest;
      assert s[1..][1..] == rest;
      assert s[1..][0] == '"';
    }
  }

  /** A field that comes back when written as it is needed no quotes. */
  lemma OnlyPlainFieldsComeBack(f: string, t: string)
    requires EndsField(t) && DecodeField(f + t).Decoded? && DecodeField(f + t).value == f
    ensures !NeedsQuotes(f) && DecodeField(f + t).rest == t
  {
    var s := f + t;
    if s != "" && s[0] == '"' {
      QuotedIsCanonical(s[1..]);
      var rest := "\"" + DecodeQuoted(s[1..]).rest;
      assert f != "" && f[0] == '"' && s[1..] == f[1..] + t;
      LeadingOfPrefix(f[1..], t);
      LeadingOfDoubled(f, rest);
      assert false;
    } else {
      PlainIsPlain(s);
      assert s[|f|..] == t == DecodePlain(s).rest;
    }
  }

  lemma {:induction false} OnlyPlainRecordsComeBack(fields: seq<string>, t: string)
    requires fields != [] && EndsRecord(t)
    requires DecodeRecord(Join(fields, ",") + t).Decoded? && DecodeRecord(Join(fields, ",") + t).value == fields
    ensures forall i | 0 <= i < |fields| :: !NeedsQuotes(fields[i])
    decreases |fields|
  {
    var s := Join(fields, ",") + t;
    if |fields| == 1 {
      assert s == fields[0] + t;
      OnlyPlainFieldsComeBack(fields[0], t);
    } else {
      var rest := "," + (Join(fields[1..], ",") + t);
      JoinCons(fields, ",");
      assert s == fields[0] + rest;
      assert DecodeField(s).Decoded? && DecodeRecord(s).value[0] == DecodeField(s).value;
      OnlyPlainFieldsComeBack(fields[0], rest);
      assert rest[1..] == Join(fields[1..], ",") + t;
      assert DecodeRecord(s).value == [fields[0]] + DecodeRecord(rest[1..]).value;
      assert DecodeRecord(rest[1..]).value == DecodeRecord(s).value[1..] == fields[1..];
      OnlyPlainRecordsComeBack(fields[1..], t);
      assert forall i | 0 < i < |fields| :: fields[i] == fields[1..][i - 1];
    }
  }

  lemma HeaderLine(data: seq<Row>, columns: seq<Column>) returns (t: string)
    ensures EndsRecord(t) && Export(data, columns)[1..] == Join(Labels(columns), ",") + t
  {
    var lines := Lines(data, columns);
    var all := [Join(Labels(columns), ",")] + lines;
    if lines == [] {
      t := "";
      assert all == [all[0]] && all[0] + "" == all[0];
    } else {
      JoinCons(all, "\n");
      t := "\n" + Join(all[1..], "\n");
    }
  }

  lemma LabelsArePlain(columns: seq<Column>)
    requires forall i | 0 <= i < |columns| :: !NeedsQuotes(Labels(columns)[i])
    ensures PlainLabels(columns)
  {
    forall c | c in columns
      ensures !NeedsQuotes(c.title)
    {
      var i :| 0 <= i < |columns| && columns[i] == c;
      assert Labels(columns)[i] == c.title;
    }
  }

  /** Whatever the rows, the exported file decodes to its contents exactly when no label holds a comma,
      a quote or a line feed: the labels are the only part written unquoted. */
  lemma ExportDecodesIff(data: seq<Row>, columns: seq<Column>)
    requires columns != []
    ensures Decode(Export(data, columns)) == Decoded(Contents(data, columns), "") <==> PlainLabels(columns)
  {
    if PlainLabels(columns) {
      ExportDecodes(data, columns);
    } else if Decode(Export(data, columns)) == Decoded(Contents(data, columns), "") {
      var t := HeaderLine(data, columns);
      var s := Join(Labels(columns), ",") + t;
      assert DecodeRecord(s).Decoded? && DecodeRecord(s).value == Contents(data, columns)[0];
      OnlyPlainRecordsComeBack(Labels(columns), t);
      LabelsArePlain(columns);
    }
  }

  /** Labels are written unquoted, so a comma in one makes two columns of it. */
  lemma CommaInLabelSplitsHeader()
    ensures Decode(Export([], [Column("k", "a,b")])) == Decoded([["a", "b"]], "")
    ensures Contents([], [Column("k", "a,b")]) == [["a,b"]]
  {
    var columns := [Column("k", "a,b")];
    assert Labels(columns) == ["a,b"];
    assert Lines([], columns) == [];
    assert [Join(Labels(columns), ",")] + [] == ["a,b"];
    RecordsRoundTrip([["a", "b"]]);
    assert QuotedAll(["a", "b"]) == ["a", "b"];
    assert Line(["a", "b"]) == "a" + ("," + "b") == "a,b";
    assert LinesOf([["a", "b"]]) == ["a,b"];
    assert Export([], columns)[1..] == "a,b";
  }
}
