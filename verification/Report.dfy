/** The fault report on file: a hand-written printer and a hand-written parser. */
module Report {
  import opened Options
  import opened Numerals

  datatype Row = Row(level: string, code: string, text: string, face: string)

  /** `ts` is carried by the text the float is displayed as. */
  datatype Report = Report(ts: string, boot: Option<string>, condition: string,
                           faults: nat, warns: nat, rows: seq<Row>)

  // ----- printing -------------------------------------------------------------------

  function Hex(n: nat): char
    requires n < 16
  {
    ['0', '1', '2', '3', '4', '5', '6', '7', '8', '9', 'a', 'b', 'c', 'd', 'e', 'f'][n]
  }

  predicate Control(c: char) { c < ' ' }

  function EscChar(c: char): string {
    if c == '"' then "\\\""
    else if c == '\\' then "\\\\"
    else if c == '\n' then "\\n"
    else if c == '\r' then "\\r"
    else if c == '\t' then "\\t"
    else if Control(c) then "\\u00" + [Hex(c as int / 16), Hex(c as int % 16)]
    else [c]
  }

  function Esc(s: string): string {
    if s == "" then "" else Esc(s[..|s| - 1]) + EscChar(s[|s| - 1])
  }

  method Escape(s: string) returns (out: string)
    ensures out == Esc(s)
  {
    out := "";
    for i := 0 to |s|
      invariant out == Esc(s[..i])
    {
      assert s[..i + 1][..i] == s[..i];
      out := out + EscChar(s[i]);
    }
    assert s[..|s|] == s;
  }

  function Q(w: string): string { "\"" + w + "\"" }

  /** A key as it is printed and as it is searched for. */
  function Pat(key: string): string { Q(key) + ": " }

  /** A key, its quoted value, and the comma before the next key. */
  function Part(key: string, v: string): string { Pat(key) + (Q(v) + ", ") }

  function FaceText(face: string): string {
    if face == "" then "}" else ", " + (Pat("face") + (Q(face) + "}"))
  }

  function FromText(r: Row): string { Pat("text") + (Q(r.text) + FaceText(r.face)) }

  /** One row, its strings already escaped. */
  function RowText(r: Row): string {
    "{" + (Part("level", r.level) + (Part("code", r.code) + FromText(r)))
  }

  function RowsText(rows: seq<Row>): string {
    if rows == [] then ""
    else if |rows| == 1 then RowText(rows[0])
    else RowText(rows[0]) + (", " + RowsText(rows[1..]))
  }

  /** A key and its bare value. */
  function Bare(key: string, v: string): string { Pat(key) + (v + ", ") }

  function WarnsText(r: Report): string { Pat("warns") + (ShowNat(r.warns) + "}") }

  function FaultsText(r: Report): string { Bare("faults", ShowNat(r.faults)) + WarnsText(r) }

  function RowsPart(r: Report): string { Pat("rows") + ("[" + (RowsText(r.rows) + "], ")) }

  function FromRows(r: Report): string { RowsPart(r) + FaultsText(r) }

  function BootValue(boot: Option<string>): string {
    match boot
    case None => "null"
    case Some(b) => Q(b)
  }

  function BootPart(r: Report): string { Bare("boot", BootValue(r.boot)) }

  function FromBoot(r: Report): string { BootPart(r) + FromRows(r) }

  function TsPart(r: Report): string { "{" + Bare("ts", r.ts) }

  /** The file, from a report whose strings are already escaped. */
  function FileText(r: Report): string { TsPart(r) + FromBoot(r) }

  function EscRow(r: Row): Row { Row(Esc(r.level), Esc(r.code), Esc(r.text), Esc(r.face)) }

  function EscRows(rows: seq<Row>): (out: seq<Row>)
    ensures |out| == |rows|
    ensures forall i :: 0 <= i < |rows| ==> out[i] == EscRow(rows[i])
  {
    seq(|rows|, i requires 0 <= i < |rows| => EscRow(rows[i]))
  }

  function Escaped(r: Report): Report {
    r.(rows := EscRows(r.rows), boot := match r.boot case None => None case Some(b) => Some(Esc(b)))
  }

  function Json(r: Report): string { FileText(Escaped(r)) }

  // ----- parsing --------------------------------------------------------------------

  /** `find` of a substring: the least index where it starts. */
  function IndexOf(s: string, p: string): Option<nat>
    decreases |s|
  {
    if p <= s then Some(0)
    else if s == "" then None
    else match IndexOf(s[1..], p)
      case None => None
      case Some(i) => Some(i + 1)
  }

  /** `find` of a character. */
  function FirstOf(s: string, chars: string): Option<nat> {
    if s == "" then None
    else if s[0] in chars then Some(0)
    else match FirstOf(s[1..], chars)
      case None => None
      case Some(i) => Some(i + 1)
  }

  lemma {:induction false} IndexOfFits(s: string, p: string)
    ensures IndexOf(s, p).Some? ==> IndexOf(s, p).value + |p| <= |s|
    ensures IndexOf(s, p).Some? ==> s[IndexOf(s, p).value..][..|p|] == p
  {
    if !(p <= s) && s != "" {
      IndexOfFits(s[1..], p);
    }
  }

  lemma {:induction false} FirstOfFits(s: string, chars: string)
    ensures match FirstOf(s, chars)
            case None => forall c :: c in s ==> c !in chars
            case Some(i) => i < |s| && s[i] in chars && forall c :: c in s[..i] ==> c !in chars
  {
    if s != "" && s[0] !in chars {
      FirstOfFits(s[1..], chars);
      match FirstOf(s, chars)
      case None => assert s == [s[0]] + s[1..];
      case Some(i) => assert s[..i] == [s[0]] + s[1..][..i - 1];
    }
  }

  predicate Space(c: char) { c == ' ' || c == '\t' || c == '\n' || c == '\r' }

  function TrimStart(s: string): string { if s != "" && Space(s[0]) then TrimStart(s[1..]) else s }
  function TrimEnd(s: string): string { if s != "" && Space(s[|s| - 1]) then TrimEnd(s[..|s| - 1]) else s }
  function Trim(s: string): string { TrimEnd(TrimStart(s)) }

  /** The bare value after a key: up to the next comma or closing bracket. */
  function Scalar(body: string, key: string): Option<string> {
    match IndexOf(body, Pat(key))
    case None => None
    case Some(i) =>
      IndexOfFits(body, Pat(key));
      var rest := body[i + |Pat(key)|..];
      FirstOfFits(rest, ",}]");
      Some(Trim(rest[..FirstOf(rest, ",}]").GetOr(|rest|)]))
  }

  function BootOf(body: string): Option<Option<string>> {
    match IndexOf(body, Pat("boot"))
    case None => None
    case Some(i) =>
      IndexOfFits(body, Pat("boot"));
      var rest := body[i + |Pat("boot")|..];
      if "null" <= rest then Some(None)
      else if rest == "" || rest[0] != '"' then None
      else
        FirstOfFits(rest[1..], "\"");
        match FirstOf(rest[1..], "\"")
        case None => None
        case Some(end) => Some(Some(rest[1..][..end]))
  }

  /** A row object: it ends at its only closing brace. */
  predicate IsObject(obj: string) { obj != "" && obj[|obj| - 1] == '}' }

  /** A quoted field of a row; absent or unterminated, it is empty. */
  function Field(obj: string, key: string): string
    requires IsObject(obj)
  {
    match IndexOf(obj, Pat(key))
    case None => ""
    case Some(i) =>
      KeyNotLast(obj, key);
      var s := obj[i + |Pat(key)| + 1..];
      FirstOfFits(s, "\"");
      s[..FirstOf(s, "\"").GetOr(0)]
  }

  /** So the slice one past a key never runs off the end of a row. */
  lemma KeyNotLast(obj: string, key: string)
    requires IsObject(obj)
    ensures IndexOf(obj, Pat(key)).Some? ==> IndexOf(obj, Pat(key)).value + |Pat(key)| + 1 <= |obj|
  {
    var p := Pat(key);
    IndexOfFits(obj, p);
    if IndexOf(obj, p).Some? {
      var i := IndexOf(obj, p).value;
      assert p[|p| - 1] == ' ';
      assert obj[i..][..|p|][|p| - 1] == obj[i + |p| - 1];
    }
  }

  function RowOf(obj: string): Row
    requires IsObject(obj)
  {
    Row(Field(obj, "level"), Field(obj, "code"), Field(obj, "text"), Field(obj, "face"))
  }

  /** Where the next row object of `cur` starts and ends, if there is a whole one. */
  function NextObject(cur: string): (r: Option<(nat, nat)>)
    ensures r.Some? ==> r.value.0 < r.value.1 <= |cur| && IsObject(cur[r.value.0..r.value.1])
  {
    FirstOfFits(cur, "{");
    match FirstOf(cur, "{")
    case None => None
    case Some(o) =>
      FirstOfFits(cur[o..], "}");
      match FirstOf(cur[o..], "}")
      case None => None
      case Some(c) => Some((o, o + c + 1))
  }

  function RowsOf(cur: string): seq<Row>
    decreases |cur|
  {
    match NextObject(cur)
    case None => []
    case Some((o, e)) => [RowOf(cur[o..e])] + RowsOf(cur[e..])
  }

  /** The text of the row list: from the key to the first closing bracket. */
  function RowsArea(body: string): Option<string> {
    match IndexOf(body, Pat("rows") + "[")
    case None => None
    case Some(i) =>
      IndexOfFits(body, Pat("rows") + "[");
      var rest := body[i + |Pat("rows")| + 1..];
      FirstOfFits(rest, "]");
      match FirstOf(rest, "]")
      case None => None
      case Some(end) => Some(rest[..end])
  }

  function Parse(text: string): Option<Report> {
    match IndexOf(text, "{\"ts\":")
    case None => None
    case Some(start) =>
      IndexOfFits(text, "{\"ts\":");
      var body := text[start..];
      var ts := Scalar(body, "ts");
      var boot := BootOf(body);
      var faults := Scalar(body, "faults");
      var warns := Scalar(body, "warns");
      var area := RowsArea(body);
      if ts.None? || !IsFloatText(ts.value) || boot.None? || faults.None? || warns.None? || area.None? then None else
      var f, w := ReadNat(faults.value), ReadNat(warns.value);
      if f.None? || w.None? then None else
      Some(Report(ts.value, boot.value, "", f.value, w.value, RowsOf(area.value)))
  }

  /** The row loop of `parse_report`. */
  method ParseRows(area: string) returns (rows: seq<Row>)
    ensures rows == RowsOf(area)
  {
    rows := [];
    var cur := area;
    while true
      invariant rows + RowsOf(cur) == RowsOf(area)
      decreases |cur|
    {
      var next := NextObject(cur);
      if next.None? {
        break;
      }
      var (o, e) := next.value;
      rows := rows + [RowOf(cur[o..e])];
      cur := cur[e..];
    }
  }

  // ----- what the parser can never give back -----------------------------------------

  predicate Free(s: string, c: char) { c !in s }

  predicate PlainText(s: string) { Free(s, '"') && Free(s, ']') && Free(s, '}') }

  predicate PlainRow(r: Row) {
    PlainText(r.level) && PlainText(r.code) && PlainText(r.text) && PlainText(r.face)
  }

  lemma SliceIsFree(s: string, at: nat, n: nat, c: char)
    requires at + n <= |s| && Free(s, c)
    ensures Free(s[at..][..n], c)
  {
    forall i | 0 <= i < n ensures s[at..][..n][i] != c { assert s[at..][..n][i] == s[at + i]; }
  }

  lemma FieldIsPlain(obj: string, key: string)
    requires IsObject(obj) && Free(obj, ']') && Free(obj[..|obj| - 1], '}')
    ensures PlainText(Field(obj, key))
  {
    KeyNotLast(obj, key);
    match IndexOf(obj, Pat(key))
    case None =>
    case Some(i) =>
      var at := i + |Pat(key)| + 1;
      var s := obj[at..];
      FirstOfFits(s, "\"");
      match FirstOf(s, "\"") {
        case None => assert s[..0] == "";
        case Some(e) =>
          assert s[e] == '"' && s[e] == obj[at + e];
          SliceIsFree(obj, at, e, ']');
          SliceIsFree(obj[..|obj| - 1], at, e, '}');
          assert obj[..|obj| - 1][at..][..e] == s[..e];
      }
  }

  lemma {:induction false} RowsArePlain(cur: string)
    requires Free(cur, ']')
    ensures forall r :: r in RowsOf(cur) ==> PlainRow(r)
    decreases |cur|
  {
    var next := NextObject(cur);
    if next.Some? {
      var (o, e) := next.value;
      var obj := cur[o..e];
      FirstOfFits(cur, "{");
      FirstOfFits(cur[o..], "}");
      assert obj[..|obj| - 1] == cur[o..][..e - o - 1];
      FieldIsPlain(obj, "level");
      FieldIsPlain(obj, "code");
      FieldIsPlain(obj, "text");
      FieldIsPlain(obj, "face");
      RowsArePlain(cur[e..]);
    }
  }

  lemma ParsedIsPlain(text: string)
    ensures Parse(text).Some? ==>
              && (forall r :: r in Parse(text).value.rows ==> PlainRow(r))
              && (Parse(text).value.boot.Some? ==> Free(Parse(text).value.boot.value, '"'))
  {
    if Parse(text).Some? {
      IndexOfFits(text, "{\"ts\":");
      var body := text[IndexOf(text, "{\"ts\":").value..];
      BootIsPlain(body);
      AreaHasNoBracket(body);
      RowsArePlain(RowsArea(body).value);
    }
  }

  lemma BootIsPlain(body: string)
    ensures BootOf(body).Some? && BootOf(body).value.Some? ==> Free(BootOf(body).value.value, '"')
  {
    if IndexOf(body, Pat("boot")).Some? {
      IndexOfFits(body, Pat("boot"));
      var rest := body[IndexOf(body, Pat("boot")).value + |Pat("boot")|..];
      if rest != "" {
        FirstOfFits(rest[1..], "\"");
      }
    }
  }

  lemma AreaHasNoBracket(body: string)
    ensures RowsArea(body).Some? ==> Free(RowsArea(body).value, ']')
  {
    var p := Pat("rows") + "[";
    if IndexOf(body, p).Some? {
      IndexOfFits(body, p);
      FirstOfFits(body[IndexOf(body, p).value + |p|..], "]");
    }
  }
}
