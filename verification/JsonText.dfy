/** The fault file as JSON: a string reader after section 7 of RFC 8259, written without the
    printer's tables, and the file's own layout. */
module JsonText {
  import opened Options
  import opened Numerals
  import opened Seqs
  import R = Report

  // ----- a string, read -----------------------------------------------------------------

  function HexValue(c: char): Option<nat> {
    if '0' <= c <= '9' then Some(c as int - 48)
    else if 'a' <= c <= 'f' then Some(c as int - 87)
    else if 'A' <= c <= 'F' then Some(c as int - 55)
    else None
  }

  /** Four hexadecimal digits; halves of a surrogate pair are not read here. */
  function HexChar(s: string): Option<char>
    requires |s| == 4
  {
    var a, b, c, d := HexValue(s[0]), HexValue(s[1]), HexValue(s[2]), HexValue(s[3]);
    if a.None? || b.None? || c.None? || d.None? then None else
    var n := 4096 * a.value + 256 * b.value + 16 * c.value + d.value;
    if n < 0xD800 then Some(n as char) else None
  }

  /** The short escapes. */
  function Short(c: char): Option<char> {
    if c == '"' || c == '\\' || c == '/' then Some(c)
    else if c == 'b' then Some(8 as char)
    else if c == 'f' then Some(12 as char)
    else if c == 'n' then Some(10 as char)
    else if c == 'r' then Some(13 as char)
    else if c == 't' then Some(9 as char)
    else None
  }

  /** One character of a string's body and how much of the text it took; a bare quote, a bare
      control character and an unknown escape are refused. */
  function OneChar(s: string): (r: Option<(char, nat)>)
    requires s != ""
    ensures r.Some? ==> 0 < r.value.1 <= |s|
  {
    if s[0] == '"' || s[0] as int < 32 then None
    else if s[0] != '\\' then Some((s[0], 1))
    else if |s| < 2 then None
    else if s[1] == 'u' then
      if |s| < 6 || HexChar(s[2..6]).None? then None else Some((HexChar(s[2..6]).value, 6))
    else if Short(s[1]).Some? then Some((Short(s[1]).value, 2))
    else None
  }

  /** What a string's body, between its quotes, says. */
  function Unescape(s: string): Option<string>
    decreases |s|
  {
    if s == "" then Some("") else
    match OneChar(s)
    case None => None
    case Some((c, n)) =>
      match Unescape(s[n..])
      case None => None
      case Some(rest) => Some([c] + rest)
  }

  // ----- what the printer escapes -----------------------------------------------------

  lemma HexReads(n: nat)
    requires n < 16
    ensures HexValue(R.Hex(n)) == Some(n)
  {
  }

  lemma ControlReads(c: char)
    requires (c as int) < 32
    ensures HexChar(['0', '0', R.Hex(c as int / 16), R.Hex(c as int % 16)]) == Some(c)
  {
    HexReads(c as int / 16);
    HexReads(c as int % 16);
  }

  lemma OneEscapeReads(c: char, rest: string)
    ensures R.EscChar(c) != "" && OneChar(R.EscChar(c) + rest) == Some((c, |R.EscChar(c)|))
  {
    var s := R.EscChar(c) + rest;
    if (c as int) < 32 && c !in "\n\r\t" {
      ControlReads(c);
      assert s[2..6] == ['0', '0', R.Hex(c as int / 16), R.Hex(c as int % 16)];
    }
  }

  lemma {:induction false} EscOfFirst(s: string)
    requires s != ""
    ensures R.Esc(s) == R.EscChar(s[0]) + R.Esc(s[1..])
  {
    var n := |s| - 1;
    if n == 0 {
      assert R.Esc("") == "" && s[..0] == "" && s[1..] == "";
    } else {
      EscOfFirst(s[..n]);
      assert s[..n][1..] == s[1..][..n - 1];
      Assoc(R.EscChar(s[0]), R.Esc(s[1..][..n - 1]), R.EscChar(s[n]));
    }
  }

  lemma ReadsOneMore(head: string, c: char, rest: string, said: string)
    requires head != "" && OneChar(head + rest) == Some((c, |head|)) && Unescape(rest) == Some(said)
    ensures Unescape(head + rest) == Some([c] + said)
  {
    assert (head + rest)[|head|..] == rest;
  }

  lemma FirstReads(c: char, rest: string, said: string)
    requires Unescape(rest) == Some(said)
    ensures Unescape(R.EscChar(c) + rest) == Some([c] + said)
  {
    OneEscapeReads(c, rest);
    ReadsOneMore(R.EscChar(c), c, rest, said);
  }

  /** Every string the printer escapes is a well-formed JSON string, and says what was printed. */
  lemma {:induction false} EscapedSaysItself(s: string)
    ensures Unescape(R.Esc(s)) == Some(s)
    decreases |s|
  {
    if s != "" {
      EscOfFirst(s);
      EscapedSaysItself(s[1..]);
      FirstReads(s[0], R.Esc(s[1..]), s[1..]);
      assert s == [s[0]] + s[1..];
    }
  }

  /** Nothing is escaped that need not be: a character of its own stands for itself. */
  lemma EscapedOnlyWhenItMust(c: char)
    ensures R.EscChar(c) == [c] <==> c != '"' && c != '\\' && c as int >= 32
  {
  }

  // ----- the file's layout --------------------------------------------------------------

  lemma QLayout(w: string, rest: string)
    ensures R.Q(w) + rest == "\"" + (w + ("\"" + rest))
  {
    Assoc("\"" + w, "\"", rest);
    Assoc("\"", w, "\"" + rest);
  }

  lemma PartLayout(key: string, v: string, rest: string)
    ensures R.Part(key, v) + rest == (R.Pat(key) + "\"") + (v + ("\", " + rest))
  {
    Assoc(R.Pat(key), R.Q(v) + ", ", rest);
    Assoc(R.Q(v), ", ", rest);
    QLayout(v, ", " + rest);
    Assoc("\"", ", ", rest);
    Assoc(R.Pat(key), "\"", v + ("\", " + rest));
  }

  lemma BareLayout(key: string, v: string, rest: string)
    ensures R.Bare(key, v) + rest == R.Pat(key) + (v + (", " + rest))
  {
    Assoc(R.Pat(key), v + ", ", rest);
    Assoc(v, ", ", rest);
  }

  /** Text between two values, put together. */
  lemma Glue(a: string, b: string, rest: string, ab: string)
    requires a + b == ab
    ensures a + (b + rest) == ab + rest
  {
    Assoc(a, b, rest);
  }

  lemma RowKeys()
    ensures R.Pat("level") == "\"level\": " && R.Pat("code") == "\"code\": "
    ensures R.Pat("text") == "\"text\": " && R.Pat("face") == "\"face\": "
  {
  }

  lemma FileKeys()
    ensures R.Pat("ts") == "\"ts\": " && R.Pat("boot") == "\"boot\": " && R.Pat("rows") == "\"rows\": "
    ensures R.Pat("faults") == "\"faults\": " && R.Pat("warns") == "\"warns\": "
  {
  }

  /** Behind a row's text: the quote that closes it, and the face if there is one. */
  function FaceEnd(face: string): string { if face == "" then "\"}" else "\", \"face\": \"" + (face + "\"}") }

  /** A row as it stands in the file. */
  lemma RowLayout(r: R.Row)
    ensures R.RowText(r) ==
            "{\"level\": \"" + (r.level + ("\", \"code\": \"" + (r.code
            + ("\", \"text\": \"" + (r.text + FaceEnd(r.face))))))
  {
    CodeLayout(r);
    LevelLayout(r.level, r.code + ("\", \"text\": \"" + (r.text + FaceEnd(r.face))));
  }

  lemma LevelLayout(level: string, rest: string)
    ensures "{" + (R.Part("level", level) + ("\"code\": \"" + rest)) ==
            "{\"level\": \"" + (level + ("\", \"code\": \"" + rest))
  {
    RowKeys();
    PartLayout("level", level, "\"code\": \"" + rest);
    Glue("\", ", "\"code\": \"", rest, "\", \"code\": \"");
    Glue("{", "\"level\": \"", level + ("\", \"code\": \"" + rest), "{\"level\": \"");
  }

  lemma CodeLayout(r: R.Row)
    ensures R.Part("code", r.code) + R.FromText(r) ==
            "\"code\": \"" + (r.code + ("\", \"text\": \"" + (r.text + FaceEnd(r.face))))
  {
    RowKeys();
    TextLayout(r);
    PartLayout("code", r.code, R.FromText(r));
    Glue("\", ", "\"text\": \"", r.text + FaceEnd(r.face), "\", \"text\": \"");
  }

  lemma TextLayout(r: R.Row)
    ensures R.FromText(r) == "\"text\": \"" + (r.text + FaceEnd(r.face))
  {
    RowKeys();
    QLayout(r.text, R.FaceText(r.face));
    Glue("\"text\": ", "\"", r.text + ("\"" + R.FaceText(r.face)), "\"text\": \"");
    if r.face != "" {
      QLayout(r.face, "}");
      Glue("\"face\": ", "\"", r.face + "\"}", "\"face\": \"");
      Glue(", ", "\"face\": \"", r.face + "\"}", ", \"face\": \"");
      Glue("\"", ", \"face\": \"", r.face + "\"}", "\", \"face\": \"");
    }
  }

  /** And the file around the rows. */
  lemma FileLayout(r: R.Report, boot: string)
    requires boot == match r.boot case None => "null" case Some(b) => "\"" + b + "\""
    ensures R.FileText(r) ==
            "{\"ts\": " + (r.ts + (", \"boot\": " + (boot + (", \"rows\": [" + (R.RowsText(r.rows)
            + ("], \"faults\": " + (ShowNat(r.faults) + (", \"warns\": " + (ShowNat(r.warns) + "}")))))))))
  {
    FileKeys();
    CountsLayout(r);
    var counts := "\"faults\": " + (ShowNat(r.faults) + (", \"warns\": " + (ShowNat(r.warns) + "}")));
    RowsLayout(R.RowsText(r.rows), counts);
    Glue("], ", "\"faults\": ", ShowNat(r.faults) + (", \"warns\": " + (ShowNat(r.warns) + "}")), "], \"faults\": ");
    var rows := R.RowsText(r.rows) + ("], " + counts);
    BootLayout(boot, rows);
    var tail := boot + (", \"rows\": [" + rows);
    TsLayout(r.ts, tail);
  }

  lemma CountsLayout(r: R.Report)
    ensures R.FaultsText(r) == "\"faults\": " + (ShowNat(r.faults) + (", \"warns\": " + (ShowNat(r.warns) + "}")))
  {
    FileKeys();
    BareLayout("faults", ShowNat(r.faults), R.WarnsText(r));
    Glue(", ", "\"warns\": ", ShowNat(r.warns) + "}", ", \"warns\": ");
  }

  lemma RowsLayout(rows: string, rest: string)
    ensures (R.Pat("rows") + ("[" + (rows + "], "))) + rest == "\"rows\": [" + (rows + ("], " + rest))
  {
    FileKeys();
    Assoc(R.Pat("rows"), "[" + (rows + "], "), rest);
    Assoc("[", rows + "], ", rest);
    Assoc(rows, "], ", rest);
    Glue("\"rows\": ", "[", rows + ("], " + rest), "\"rows\": [");
  }

  lemma BootLayout(boot: string, rows: string)
    ensures R.Bare("boot", boot) + ("\"rows\": [" + rows) == "\"boot\": " + (boot + (", \"rows\": [" + rows))
  {
    FileKeys();
    BareLayout("boot", boot, "\"rows\": [" + rows);
    Glue(", ", "\"rows\": [", rows, ", \"rows\": [");
  }

  lemma TsLayout(ts: string, tail: string)
    ensures ("{" + R.Bare("ts", ts)) + ("\"boot\": " + tail) == "{\"ts\": " + (ts + (", \"boot\": " + tail))
  {
    FileKeys();
    Assoc("{", R.Bare("ts", ts), "\"boot\": " + tail);
    BareLayout("ts", ts, "\"boot\": " + tail);
    Glue(", ", "\"boot\": ", tail, ", \"boot\": ");
    Glue("{", "\"ts\": ", ts + (", \"boot\": " + tail), "{\"ts\": ");
  }
}
