/**
 * The export panel: selecting the exported columns, the CSV text it writes
 * (every data cell quoted, each inner quote doubled, as in rule 7 of section 2
 * of RFC 4180), and the string rules of the PDF export (paper format, title
 * and header rewriting, cell text).
 */
module ExportButtons {
  import opened JsValues
  import opened Strings
  import opened ViewState

  // ---------------------------------------------------------------------------
  // Column selection

  /** `s.filter(f => f !== x)` */
  function Without(s: seq<string>, x: string): (r: seq<string>)
    ensures x !in r
    ensures forall y :: y != x ==> (y in r <==> y in s)
    ensures |r| <= |s|
    ensures x !in s ==> r == s
    ensures IsSubsequence(r, s)
    ensures forall y :: multiset(r)[y] == if y == x then 0 else multiset(s)[y]
  {
    if s == [] then []
    else
      var rest := Without(s[1..], x);
      SubsequenceCons(rest, s[0], s[1..]);
      assert [s[0]] + s[1..] == s;
      if s[0] == x then rest else [s[0]] + rest
  }

  /**
   * `handleFieldChange`: remove every copy of a selected field, keeping the
   * other entries in order and with their repeats, or append an unselected one.
   */
  function ToggleField(selected: seq<string>, field: string): (r: seq<string>)
    ensures field in selected ==> field !in r && forall y :: y != field ==> (y in r <==> y in selected)
    ensures field in selected ==> IsSubsequence(r, selected)
    ensures field in selected ==> forall y :: multiset(r)[y] == if y == field then 0 else multiset(selected)[y]
    ensures field !in selected ==> r == selected + [field]
  {
    if field in selected then Without(selected, field) else selected + [field]
  }

  /** Toggling the same field twice restores which fields are selected. */
  lemma ToggleTwice(selected: seq<string>, field: string)
    ensures forall y :: y in ToggleField(ToggleField(selected, field), field) <==> y in selected
    ensures field !in selected ==> ToggleField(ToggleField(selected, field), field) == selected
  {
    if field !in selected {
      assert Without(selected + [field], field) == selected by {
        WithoutAppended(selected, field);
      }
    }
  }

  lemma {:induction false} WithoutAppended(s: seq<string>, x: string)
    requires x !in s
    ensures Without(s + [x], x) == s
  {
    if s != [] {
      assert (s + [x])[1..] == s[1..] + [x];
      WithoutAppended(s[1..], x);
    }
  }

  /** `toggleAllFields`: clear the selection when it has as many entries as the headers, else select all. */
  function ToggleAll(selected: seq<string>, headers: seq<string>): (r: seq<string>)
    ensures |selected| == |headers| ==> r == []
    ensures |selected| != |headers| ==> r == headers
  {
    if |selected| == |headers| then [] else headers
  }

  // ---------------------------------------------------------------------------
  // CSV text

  /** `s.replace(/"/g, '""')` */
  function Escape(s: string): (r: string)
    ensures |r| >= |s|
  {
    if s == [] then ""
    else if s[0] == '"' then "\"\"" + Escape(s[1..])
    else [s[0]] + Escape(s[1..])
  }

  /** A data cell: the escaped text between double quotes. */
  function Quote(s: string): (r: string)
    ensures |r| == |Escape(s)| + 2 && r[0] == '"' && r[|r| - 1] == '"'
  {
    "\"" + Escape(s) + "\""
  }

  /** `(row[h] || '').toString()`: falsy values (missing, `null`, `''`, `0`, `false`) give `''`. */
  function CsvCellText(v: JsValue): (r: string)
    ensures !Truthy(v) ==> r == ""
    ensures Truthy(v) ==> r == ToJsString(v)
  {
    if Truthy(v) then ToJsString(v) else ""
  }

  /** The texts of a row's cells, one per selected field, in selection order. */
  function CellTexts(row: Object, fields: seq<string>): (r: seq<string>)
    ensures |r| == |fields|
    ensures forall i :: 0 <= i < |fields| ==> r[i] == CsvCellText(Get(row, fields[i]))
  {
    seq(|fields|, i requires 0 <= i < |fields| => CsvCellText(Get(row, fields[i])))
  }

  function QuoteAll(cells: seq<string>): (r: seq<string>)
    ensures |r| == |cells|
    ensures forall i :: 0 <= i < |cells| ==> r[i] == Quote(cells[i])
  {
    seq(|cells|, i requires 0 <= i < |cells| => Quote(cells[i]))
  }

  /** One data line: the quoted cells joined by commas. */
  function CsvLine(row: Object, fields: seq<string>): string
  {
    Join(QuoteAll(CellTexts(row, fields)), ",")
  }

  /** The header line: the field names joined by commas, neither quoted nor escaped. */
  function CsvHeader(fields: seq<string>): string
  {
    Join(fields, ",")
  }

  /** The file content: the header line, then one line per row in `data` order, joined by newlines. */
  function CsvText(data: seq<Object>, fields: seq<string>): string
  {
    Join(CsvLines(data, fields), "\n")
  }

  /**
   * Since the header is not quoted, a field name holding a comma reads as two
   * columns: whatever the other fields, `a,b` gives the same header as `a`
   * followed by `b`.
   */
  lemma HeaderNotQuoted(a: string, b: string, rest: seq<string>)
    ensures CsvHeader([a + "," + b] + rest) == CsvHeader([a, b] + rest)
  {
    var tail := if rest == [] then "" else "," + Join(rest, ",");
    assert ([b] + rest)[1..] == rest;
    assert Join([b] + rest, ",") == b + tail;
    assert ([a, b] + rest)[1..] == [b] + rest;
    assert Join([a, b] + rest, ",") == a + "," + (b + tail);
    assert ([a + "," + b] + rest)[1..] == rest;
    assert Join([a + "," + b] + rest, ",") == (a + "," + b) + tail;
  }

  /** A falsy cell is written as an empty quoted field. */
  lemma FalsyCellIsEmptyQuotes(v: JsValue)
    requires !Truthy(v)
    ensures Quote(CsvCellText(v)) == "\"\""
  {
  }

  // A reader for the lines the export writes, used to state that they can be read back.

  /**
   * Reads the inside of a quoted field up to its closing quote; `""` stands for
   * one quote. Gives the text and what follows the closing quote.
   */
  function ParseQuoted(s: string): (r: Option<(string, string)>)
    ensures r.Some? ==> |r.value.1| < |s|
  {
    if s == [] then None
    else if s[0] == '"' then
      if |s| >= 2 && s[1] == '"' then
        match ParseQuoted(s[2..])
        case None => None
        case Some(p) => Some(("\"" + p.0, p.1))
      else Some(("", s[1..]))
    else
      match ParseQuoted(s[1..])
      case None => None
      case Some(p) => Some(([s[0]] + p.0, p.1))
  }

  /** Reads one or more comma-separated quoted fields making up the whole of `s`. */
  function ParseFields(s: string): (r: Option<seq<string>>)
    ensures r.Some? ==> |r.value| >= 1
    decreases |s|
  {
    if s == [] || s[0] != '"' then None
    else
      match ParseQuoted(s[1..])
      case None => None
      case Some(p) =>
        if p.1 == [] then Some([p.0])
        else if p.1[0] != ',' then None
        else
          match ParseFields(p.1[1..])
          case None => None
          case Some(cs) => Some([p.0] + cs)
  }

  /** Reads a data line; the empty line has no fields. */
  function ParseLine(s: string): Option<seq<string>>
  {
    if s == [] then Some([]) else ParseFields(s)
  }

  /** Undoing the doubling of quotes recovers the escaped text. */
  lemma {:induction false} QuotedRoundTrip(c: string, tail: string)
    requires tail == [] || tail[0] != '"'
    ensures ParseQuoted(Escape(c) + "\"" + tail) == Some((c, tail))
  {
    var s := Escape(c) + "\"" + tail;
    if c == [] {
      assert s == "\"" + tail;
      assert s[1..] == tail;
      assert !(|s| >= 2 && s[1] == '"');
    } else {
      var s' := Escape(c[1..]) + "\"" + tail;
      QuotedRoundTrip(c[1..], tail);
      assert [c[0]] + c[1..] == c;
      if c[0] == '"' {
        assert s == "\"\"" + s';
        assert s[2..] == s';
        assert ParseQuoted(s) == Some(("\"" + c[1..], tail));
      } else {
        assert s == [c[0]] + s';
        assert s[1..] == s';
        assert ParseQuoted(s) == Some(([c[0]] + c[1..], tail));
      }
    }
  }

  /** Reading back a non-empty list of quoted fields gives the original cells. */
  lemma {:induction false} FieldsRoundTrip(cells: seq<string>)
    requires |cells| >= 1
    ensures ParseFields(Join(QuoteAll(cells), ",")) == Some(cells)
  {
    var q := QuoteAll(cells);
    var s := Join(q, ",");
    if |cells| == 1 {
      assert s == q[0];
      assert s == "\"" + (Escape(cells[0]) + "\"" + "");
      QuotedRoundTrip(cells[0], "");
      assert s[1..] == Escape(cells[0]) + "\"" + "";
      assert ParseQuoted(s[1..]) == Some((cells[0], ""));
      assert s != [] && s[0] == '"';
      assert cells == [cells[0]];
    } else {
      var rest := Join(QuoteAll(cells[1..]), ",");
      assert QuoteAll(cells[1..]) == q[1..];
      assert s == q[0] + "," + rest;
      assert s == "\"" + (Escape(cells[0]) + "\"" + ("," + rest));
      assert s[1..] == Escape(cells[0]) + "\"" + ("," + rest);
      QuotedRoundTrip(cells[0], "," + rest);
      assert ("," + rest)[1..] == rest;
      FieldsRoundTrip(cells[1..]);
      assert [cells[0]] + cells[1..] == cells;
    }
  }

  /**
   * Every data line holds exactly one field per selected column, and reading it
   * back (strip the outer quotes, undo the doubled quotes) gives each cell's text.
   */
  lemma CsvLineRoundTrip(row: Object, fields: seq<string>)
    ensures ParseLine(CsvLine(row, fields)) == Some(CellTexts(row, fields))
  {
    var cells := CellTexts(row, fields);
    if |fields| == 0 {
      assert QuoteAll(cells) == [];
    } else {
      FieldsRoundTrip(cells);
      assert CsvLine(row, fields) != [] by {
        assert CsvLine(row, fields)[0] == '"';
      }
    }
  }

  // Reading the file back line by line.

  /** Splits a text at every newline; a text without newlines is one line. */
  function Lines(s: string): (r: seq<string>)
    ensures |r| >= 1
    ensures forall k :: 0 <= k < |r| ==> '\n' !in r[k]
  {
    if s == [] then [""]
    else if s[0] == '\n' then [""] + Lines(s[1..])
    else
      var rest := Lines(s[1..]);
      [[s[0]] + rest[0]] + rest[1..]
  }

  lemma {:induction false} LinesNoNewline(s: string)
    requires '\n' !in s
    ensures Lines(s) == [s]
  {
    if s != [] {
      LinesNoNewline(s[1..]);
      assert [s[0]] + s[1..] == s;
    }
  }

  /** A line, a newline, then the rest: the line followed by the lines of the rest. */
  lemma {:induction false} LinesAfterLine(a: string, b: string)
    requires '\n' !in a
    ensures Lines(a + "\n" + b) == [a] + Lines(b)
  {
    var s := a + "\n" + b;
    if a == [] {
      assert s == "\n" + b;
      assert s[1..] == b;
    } else {
      assert s[1..] == a[1..] + "\n" + b;
      LinesAfterLine(a[1..], b);
      assert [a[0]] + a[1..] == a;
    }
  }

  /** Joining newline-free lines with newlines and splitting again gives the lines back. */
  lemma {:induction false} LinesOfJoin(parts: seq<string>)
    requires |parts| >= 1
    requires forall k :: 0 <= k < |parts| ==> '\n' !in parts[k]
    ensures Lines(Join(parts, "\n")) == parts
  {
    if |parts| == 1 {
      LinesNoNewline(parts[0]);
    } else {
      assert Join(parts, "\n") == parts[0] + "\n" + Join(parts[1..], "\n");
      LinesAfterLine(parts[0], Join(parts[1..], "\n"));
      LinesOfJoin(parts[1..]);
      assert [parts[0]] + parts[1..] == parts;
    }
  }

  /** Joining texts without newlines by a separator without newlines adds none. */
  lemma {:induction false} JoinNoNewline(parts: seq<string>, sep: string)
    requires '\n' !in sep
    requires forall k :: 0 <= k < |parts| ==> '\n' !in parts[k]
    ensures '\n' !in Join(parts, sep)
  {
    if |parts| > 1 {
      JoinNoNewline(parts[1..], sep);
      assert Join(parts, sep) == parts[0] + sep + Join(parts[1..], sep);
    }
  }

  /** Doubling quotes adds no newline. */
  lemma {:induction false} EscapeNoNewline(s: string)
    requires '\n' !in s
    ensures '\n' !in Escape(s)
  {
    if s != [] {
      assert '\n' !in s[1..] by {
        assert forall k :: 0 <= k < |s[1..]| ==> s[1..][k] == s[k + 1];
      }
      EscapeNoNewline(s[1..]);
    }
  }

  /** A data line whose cell texts hold no newline holds none. */
  lemma CsvLineNoNewline(row: Object, fields: seq<string>)
    requires forall j :: 0 <= j < |fields| ==> '\n' !in CsvCellText(Get(row, fields[j]))
    ensures '\n' !in CsvLine(row, fields)
  {
    var cells := CellTexts(row, fields);
    forall j | 0 <= j < |cells|
      ensures '\n' !in QuoteAll(cells)[j]
    {
      EscapeNoNewline(cells[j]);
    }
    JoinNoNewline(QuoteAll(cells), ",");
  }

  /** The lines of the file, in order: the header, then one line per row of `data`. */
  function CsvLines(data: seq<Object>, fields: seq<string>): (r: seq<string>)
    ensures |r| == |data| + 1 && r[0] == CsvHeader(fields)
    ensures forall i :: 0 <= i < |data| ==> r[i + 1] == CsvLine(data[i], fields)
  {
    [CsvHeader(fields)] + seq(|data|, i requires 0 <= i < |data| => CsvLine(data[i], fields))
  }

  /**
   * When no field name and no cell text holds a newline, the file splits into
   * exactly the header line and one line per row in `data` order.
   */
  lemma CsvTextLines(data: seq<Object>, fields: seq<string>)
    requires forall j :: 0 <= j < |fields| ==> '\n' !in fields[j]
    requires forall i, j :: 0 <= i < |data| && 0 <= j < |fields| ==> '\n' !in CsvCellText(Get(data[i], fields[j]))
    ensures Lines(CsvText(data, fields)) == CsvLines(data, fields)
  {
    var lines := CsvLines(data, fields);
    assert CsvText(data, fields) == Join(lines, "\n");
    JoinNoNewline(fields, ",");
    forall k | 0 <= k < |lines|
      ensures '\n' !in lines[k]
    {
      if k > 0 {
        CsvLineNoNewline(data[k - 1], fields);
      }
    }
    LinesOfJoin(lines);
  }

  /** Under the same condition, line `i + 1` of the file reads back as row `i`'s cell texts. */
  lemma CsvTextReadsBack(data: seq<Object>, fields: seq<string>, i: int)
    requires forall j :: 0 <= j < |fields| ==> '\n' !in fields[j]
    requires forall i, j :: 0 <= i < |data| && 0 <= j < |fields| ==> '\n' !in CsvCellText(Get(data[i], fields[j]))
    requires 0 <= i < |data|
    ensures |Lines(CsvText(data, fields))| == |data| + 1
    ensures ParseLine(Lines(CsvText(data, fields))[i + 1]) == Some(CellTexts(data[i], fields))
  {
    CsvTextLines(data, fields);
    CsvLineRoundTrip(data[i], fields);
  }

  // ---------------------------------------------------------------------------
  // PDF strings

  datatype PaperFormat = A3 | A4

  /** Wide exports (more than ten columns) use a3 paper, the others a4. */
  function PdfFormat(selectedFields: seq<string>): (f: PaperFormat)
    ensures f == A3 <==> |selectedFields| > 10
  {
    if |selectedFields| > 10 then A3 else A4
  }

  /** `fileName.replace(/_/g, ' ')` */
  function PdfTitle(fileName: string): (r: string)
    ensures |r| == |fileName| && '_' !in r
    ensures forall i :: 0 <= i < |r| ==> r[i] == (if fileName[i] == '_' then ' ' else fileName[i])
  {
    ReplaceChar(fileName, '_', ' ')
  }

  const Rupee: string := "(\U{20B9})"

  /**
   * `h.replace(/\s*\(₹\)/, ' (INR)')`: the first `(₹)`, together with the
   * run of whitespace just before it, becomes ` (INR)`; later ones stay.
   */
  function PdfHeader(h: string): (r: string)
    ensures !Contains(h, Rupee) ==> r == h
  {
    IndexOfFirst(h, Rupee);
    var k := IndexOf(h, Rupee);
    if k < 0 then h else TrimEnd(h[..k]) + " (INR)" + h[k + 3..]
  }

  /** A header `a`, blank run `ws`, `(₹)`, rest `b`, with no earlier `(₹)`, becomes `a (INR)b`. */
  lemma PdfHeaderReplacesFirst(a: string, ws: string, b: string)
    requires a == [] || !IsWhitespace(a[|a| - 1])
    requires IsBlank(ws)
    requires !Contains(a + ws, Rupee)
    ensures PdfHeader(a + ws + Rupee + b) == a + " (INR)" + b
  {
    var p := a + ws;
    var h := p + Rupee + b;
    assert h == a + ws + Rupee + b;
    assert OccursAt(h, Rupee, |p|) by {
      assert h[|p|..|p| + 3] == Rupee;
    }
    IndexOfFirst(h, Rupee);
    var k := IndexOf(h, Rupee);
    forall j | 0 <= j < |p|
      ensures !OccursAt(h, Rupee, j)
    {
      if j + 3 <= |p| {
        assert h[j..j + 3] == p[j..j + 3];
        assert !OccursAt(p, Rupee, j);
      } else {
        var m := |p| - j;
        assert h[|p|] == '(';
        assert h[j..j + 3][m] == h[|p|];
        assert Rupee[m] != '(';
      }
    }
    assert k == |p|;
    assert h[..k] == p;
    assert h[k + 3..] == b;
    if a == [] {
      assert TrimEnd(p) == [] by {
        assert p == ws;
        TrimEndBlank(ws);
      }
    } else {
      TrimEndKeepsPrefix(a, ws);
    }
  }

  lemma {:induction false} TrimEndBlank(s: string)
    requires IsBlank(s)
    ensures TrimEnd(s) == []
  {
    if s != [] {
      assert IsWhitespace(s[|s| - 1]);
      TrimEndBlank(s[..|s| - 1]);
    }
  }

  /** `row[h]?.toString() || ""`: only a missing or `null` value gives `''`; zero prints as `0`. */
  function PdfCell(v: JsValue): (r: string)
    ensures IsNullish(v) ==> r == ""
    ensures v.Num? ==> r == IntToString(v.n)
    ensures v.Str? ==> r == v.s
  {
    var t := if IsNullish(v) then "" else ToJsString(v);
    if t == "" then "" else t
  }

  /**
   * The CSV and the PDF cell rules differ exactly on a falsy value that is
   * neither `null` nor `undefined` and prints as something: the CSV writes it
   * empty, the PDF writes its text. A zero cell is one such value.
   */
  lemma CsvAndPdfCellsDiffer(v: JsValue)
    ensures CsvCellText(v) != PdfCell(v) <==> !Truthy(v) && !IsNullish(v) && ToJsString(v) != ""
    ensures v == Num(0) ==> CsvCellText(v) == "" && PdfCell(v) == "0"
  {
  }
}
