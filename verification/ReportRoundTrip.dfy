/** What comes back when a printed report is parsed, for every report. */
module ReportRoundTrip {
  import opened Options
  import opened Seqs
  import opened Numerals
  import opened Report

  // ----- searching past what cannot match -------------------------------------------

  function Shift(n: nat, i: Option<nat>): Option<nat> {
    match i
    case None => None
    case Some(k) => Some(n + k)
  }

  /** Looking for p in a + b is looking for it in b. */
  predicate Skips(a: string, b: string, p: string) {
    IndexOf(a + b, p) == Shift(|a|, IndexOf(b, p))
  }

  lemma SkipOne(c: char, rest: string, p: string)
    requires !(p <= [c] + rest)
    ensures Skips([c], rest, p)
  {
    assert ([c] + rest)[1..] == rest;
  }

  lemma {:induction false} SkipPlain(a: string, rest: string, p: string)
    requires p != "" && p[0] == '"' && Free(a, '"')
    ensures Skips(a, rest, p)
  {
    if a == "" {
      assert a + rest == rest;
    } else {
      SkipPlain(a[1..], rest, p);
      assert a + rest == [a[0]] + (a[1..] + rest);
      SkipOne(a[0], a[1..] + rest, p);
    }
  }

  lemma SkipBoth(a: string, b: string, rest: string, p: string)
    requires Skips(a, b + rest, p) && Skips(b, rest, p)
    ensures Skips(a + b, rest, p)
  {
    assert (a + b) + rest == a + (b + rest);
  }

  /** A quoted word is passed over when it is not the key, or not followed as the key is. */
  lemma SkipQuoted(w: string, rest: string, key: string, ext: string)
    requires Free(w, '"') && Free(key, '"') && key != "" && rest != "" && rest[0] != key[0]
    requires w != key || !(ext <= rest)
    ensures Skips(Q(w), rest, Q(key) + ext)
  {
    var p := Q(key) + ext;
    NotAtTheOpeningQuote(w, rest, key, ext);
    var closing := "\"" + rest;
    assert Q(w) + rest == ['"'] + (w + closing);
    SkipOne('"', w + closing, p);
    SkipPlain(w, closing, p);
    assert p[1] == key[0] && closing[1] == rest[0];
    SkipOne('"', rest, p);
  }

  lemma NotAtTheOpeningQuote(w: string, rest: string, key: string, ext: string)
    requires Free(w, '"') && Free(key, '"')
    requires w != key || !(ext <= rest)
    ensures !(Q(key) + ext <= Q(w) + rest)
  {
    var p, t, n := Q(key) + ext, Q(w) + rest, |key|;
    if n < |w| && |p| <= |t| {
      assert p[1 + n] == '"' && t[1 + n] == w[n] && w[n] in w;
    } else if n > |w| && |p| <= |t| {
      assert t[1 + |w|] == '"' && p[1 + |w|] == key[|w|] && key[|w|] in key;
    } else if n == |w| {
      assert p[n + 2..] == ext && t[n + 2..] == rest;
      assert p[1..n + 1] == key && t[1..n + 1] == w;
    }
  }

  predicate IsKey(key: string) {
    key in ["ts", "boot", "rows", "faults", "warns", "level", "code", "text", "face"]
  }

  lemma KeysAreTidy(key: string)
    requires IsKey(key)
    ensures Free(key, '"') && key != "" && key[0] != ':' && key[0] != ',' && key[0] != '}'
  {
  }

  predicate IsExt(ext: string) { ext == ": " || ext == ": [" }

  /** Another key, and the plain text after it. */
  lemma SkipKey(other: string, rest: string, key: string, ext: string)
    requires IsKey(other) && IsKey(key) && other != key
    ensures Skips(Pat(other), rest, Q(key) + ext)
  {
    KeysAreTidy(key);
    KeysAreTidy(other);
    SkipQuoted(other, ": " + rest, key, ext);
    SkipPlain(": ", rest, Q(key) + ext);
    SkipBoth(Q(other), ": ", rest, Q(key) + ext);
  }

  /** A value, followed by a comma or a brace. */
  lemma SkipValue(w: string, rest: string, key: string, ext: string)
    requires IsKey(key) && IsExt(ext) && Free(w, '"') && rest != "" && (rest[0] == ',' || rest[0] == '}')
    ensures Skips(Q(w), rest, Q(key) + ext)
  {
    KeysAreTidy(key);
    SkipQuoted(w, rest, key, ext);
  }

  lemma Found(p: string, rest: string)
    ensures IndexOf(p + rest, p) == Some(0)
  {
  }

  lemma {:induction false} FirstOfSkips(a: string, rest: string, chars: string)
    requires forall c :: c in a ==> c !in chars
    ensures FirstOf(a + rest, chars) == Shift(|a|, FirstOf(rest, chars))
  {
    if a == "" {
      assert a + rest == rest;
    } else {
      FirstOfSkips(a[1..], rest, chars);
      assert (a + rest)[1..] == a[1..] + rest;
    }
  }

  // ----- one row ------------------------------------------------------------------------

  predicate QuoteFree(r: Row) {
    Free(r.level, '"') && Free(r.code, '"') && Free(r.text, '"') && Free(r.face, '"')
  }

  lemma PartOpens(key: string, v: string, rest: string)
    ensures Part(key, v) + rest == Pat(key) + (Q(v) + (", " + rest))
  {
    Assoc(Pat(key), Q(v) + ", ", rest);
    Assoc(Q(v), ", ", rest);
  }

  /** Another key with its value and comma. */
  lemma SkipPart(other: string, v: string, rest: string, key: string, ext: string)
    requires IsKey(other) && IsKey(key) && other != key && IsExt(ext) && Free(v, '"')
    ensures Skips(Part(other, v), rest, Q(key) + ext)
  {
    var p := Q(key) + ext;
    SkipPlain(", ", rest, p);
    SkipValue(v, ", " + rest, key, ext);
    SkipBoth(Q(v), ", ", rest, p);
    SkipKey(other, (Q(v) + ", ") + rest, key, ext);
    SkipBoth(Pat(other), Q(v) + ", ", rest, p);
  }

  lemma FaceBegins(face: string, rest: string)
    ensures FaceText(face) + rest != ""
    ensures (FaceText(face) + rest)[0] == ',' || (FaceText(face) + rest)[0] == '}'
  {
  }

  /** The last pair of a row and its brace. */
  lemma SkipFace(face: string, rest: string, key: string, ext: string)
    requires IsKey(key) && IsExt(ext) && Free(face, '"') && key != "face"
    ensures Skips(FaceText(face), rest, Q(key) + ext)
  {
    var p := Q(key) + ext;
    if face == "" {
      SkipPlain("}", rest, p);
    } else {
      SkipPlain("}", rest, p);
      SkipValue(face, "}" + rest, key, ext);
      SkipBoth(Q(face), "}", rest, p);
      SkipKey("face", (Q(face) + "}") + rest, key, ext);
      SkipBoth(Pat("face"), Q(face) + "}", rest, p);
      SkipPlain(", ", (Pat("face") + (Q(face) + "}")) + rest, p);
      SkipBoth(", ", Pat("face") + (Q(face) + "}"), rest, p);
    }
  }

  lemma SkipFromText(r: Row, rest: string, key: string, ext: string)
    requires QuoteFree(r) && IsKey(key) && IsExt(ext) && key != "text" && key != "face"
    ensures Skips(FromText(r), rest, Q(key) + ext)
  {
    var p := Q(key) + ext;
    SkipFace(r.face, rest, key, ext);
    FaceBegins(r.face, rest);
    SkipValue(r.text, FaceText(r.face) + rest, key, ext);
    SkipBoth(Q(r.text), FaceText(r.face), rest, p);
    SkipKey("text", (Q(r.text) + FaceText(r.face)) + rest, key, ext);
    SkipBoth(Pat("text"), Q(r.text) + FaceText(r.face), rest, p);
  }

  /** Nothing outside a row's own four keys is found in it. */
  lemma SkipRow(r: Row, rest: string, key: string, ext: string)
    requires QuoteFree(r) && IsKey(key) && IsExt(ext) && key !in ["level", "code", "text", "face"]
    ensures Skips(RowText(r), rest, Q(key) + ext)
  {
    var p := Q(key) + ext;
    var level, code := Part("level", r.level), Part("code", r.code);
    SkipFromText(r, rest, key, ext);
    SkipPart("code", r.code, FromText(r) + rest, key, ext);
    SkipBoth(code, FromText(r), rest, p);
    SkipPart("level", r.level, (code + FromText(r)) + rest, key, ext);
    SkipBoth(level, code + FromText(r), rest, p);
    SkipPlain("{", (level + (code + FromText(r))) + rest, p);
    SkipBoth("{", level + (code + FromText(r)), rest, p);
  }

  /** Reading a quoted value just past its key. */
  lemma ValueAt(obj: string, pre: string, key: string, v: string, rest: string)
    requires IsObject(obj) && obj == pre + (Pat(key) + (Q(v) + rest)) && Free(v, '"')
    requires Skips(pre, Pat(key) + (Q(v) + rest), Pat(key))
    ensures Field(obj, key) == v
  {
    Found(Pat(key), Q(v) + rest);
    KeyNotLast(obj, key);
    var s := obj[|pre| + |Pat(key)| + 1..];
    assert s == v + ("\"" + rest);
    FirstOfSkips(v, "\"" + rest, "\"");
    assert FirstOf("\"" + rest, "\"") == Some(0);
  }

  lemma RowEndsInBrace(r: Row)
    ensures IsObject(RowText(r))
  {
    EndsInBrace(", " + (Pat("face") + Q(r.face)), FaceText(r.face));
    EndsInBrace(Q(r.text), FaceText(r.face));
    EndsInBrace(Pat("text"), Q(r.text) + FaceText(r.face));
    EndsInBrace(Part("code", r.code), FromText(r));
    EndsInBrace(Part("level", r.level), Part("code", r.code) + FromText(r));
  }

  lemma EndsInBrace(a: string, b: string)
    requires IsObject(b)
    ensures IsObject(a + b)
  {
  }

  lemma LevelOfRow(r: Row)
    requires QuoteFree(r)
    ensures IsObject(RowText(r)) && Field(RowText(r), "level") == r.level
  {
    var rest := Part("code", r.code) + FromText(r);
    RowEndsInBrace(r);
    PartOpens("level", r.level, rest);
    SkipPlain("{", Part("level", r.level) + rest, Pat("level"));
    ValueAt(RowText(r), "{", "level", r.level, ", " + rest);
  }

  lemma CodeOfRow(r: Row)
    requires QuoteFree(r)
    ensures IsObject(RowText(r)) && Field(RowText(r), "code") == r.code
  {
    var level, rest := Part("level", r.level), FromText(r);
    var from := Part("code", r.code) + rest;
    RowEndsInBrace(r);
    PartOpens("code", r.code, rest);
    SkipPart("level", r.level, from, "code", ": ");
    SkipPlain("{", level + from, Pat("code"));
    SkipBoth("{", level, from, Pat("code"));
    Assoc("{", level, from);
    ValueAt(RowText(r), "{" + level, "code", r.code, ", " + rest);
  }

  /** What stands before a row's text. */
  function BeforeText(r: Row): string { ("{" + Part("level", r.level)) + Part("code", r.code) }

  lemma RowSplits(r: Row)
    ensures RowText(r) == BeforeText(r) + FromText(r)
  {
    Assoc("{" + Part("level", r.level), Part("code", r.code), FromText(r));
    Assoc("{", Part("level", r.level), Part("code", r.code) + FromText(r));
  }

  lemma SkipBeforeText(r: Row, rest: string, key: string)
    requires QuoteFree(r) && (key == "text" || key == "face")
    ensures Skips(BeforeText(r), rest, Pat(key))
  {
    var level, code := Part("level", r.level), Part("code", r.code);
    SkipPart("code", r.code, rest, key, ": ");
    SkipPart("level", r.level, code + rest, key, ": ");
    SkipPlain("{", level + (code + rest), Pat(key));
    SkipBoth("{", level, code + rest, Pat(key));
    SkipBoth("{" + level, code, rest, Pat(key));
  }

  lemma TextOfRow(r: Row)
    requires QuoteFree(r)
    ensures IsObject(RowText(r)) && Field(RowText(r), "text") == r.text
  {
    RowEndsInBrace(r);
    RowSplits(r);
    SkipBeforeText(r, FromText(r), "text");
    ValueAt(RowText(r), BeforeText(r), "text", r.text, FaceText(r.face));
  }

  lemma FaceOfRow(r: Row)
    requires QuoteFree(r)
    ensures IsObject(RowText(r)) && Field(RowText(r), "face") == r.face
  {
    var p, face := Pat("face"), FaceText(r.face);
    RowEndsInBrace(r);
    RowSplits(r);
    SkipBeforeText(r, FromText(r), "face");
    FaceBegins(r.face, "");
    assert face + "" == face;
    SkipValue(r.text, face, "face", ": ");
    SkipKey("text", Q(r.text) + face, "face", ": ");
    if r.face == "" {
      NoFace(r);
    } else {
      var from := p + (Q(r.face) + "}");
      SkipPlain(", ", from, p);
      var pre := Pat("text") + (Q(r.text) + ", ");
      SkipBoth(Q(r.text), ", ", from, p);
      Assoc(Q(r.text), ", ", from);
      SkipBoth(Pat("text"), Q(r.text) + ", ", from, p);
      Assoc(Pat("text"), Q(r.text) + ", ", from);
      SkipBoth(BeforeText(r), pre, from, p);
      Assoc(BeforeText(r), pre, from);
      ValueAt(RowText(r), BeforeText(r) + pre, "face", r.face, "}");
    }
  }

  lemma NoFace(r: Row)
    requires r.face == "" && RowText(r) == BeforeText(r) + FromText(r) && IsObject(RowText(r))
    requires Skips(BeforeText(r), FromText(r), Pat("face"))
    requires Skips(Pat("text"), Q(r.text) + "}", Pat("face")) && Skips(Q(r.text), "}", Pat("face"))
    ensures Field(RowText(r), "face") == ""
  {
    assert IndexOf("", Pat("face")) == None;
    assert IndexOf("}", Pat("face")) == None;
  }

  lemma RowReadsBack(r: Row)
    requires QuoteFree(r)
    ensures IsObject(RowText(r)) && RowOf(RowText(r)) == r
  {
    LevelOfRow(r);
    CodeOfRow(r);
    TextOfRow(r);
    FaceOfRow(r);
  }

  // ----- the row list -------------------------------------------------------------------

  /** All but the last character is free of braces, and the last is one. */
  predicate OneBrace(s: string) { IsObject(s) && Free(s[..|s| - 1], '}') && Free(s, ']') }

  lemma PrependPlain(a: string, s: string)
    requires OneBrace(s) && Free(a, '}') && Free(a, ']')
    ensures OneBrace(a + s)
  {
    assert (a + s)[..|a + s| - 1] == a + s[..|s| - 1];
  }

  lemma PartIsPlain(key: string, v: string)
    requires IsKey(key) && PlainText(v)
    ensures Free(Part(key, v), '}') && Free(Part(key, v), ']')
  {
    QIsPlain(key);
    QIsPlain(v);
  }

  lemma QIsPlain(w: string)
    requires Free(w, '}') && Free(w, ']')
    ensures Free(Q(w), '}') && Free(Q(w), ']') && Free(Pat(w), '}') && Free(Pat(w), ']')
  {
  }

  lemma RowHasOneBrace(r: Row)
    requires PlainRow(r)
    ensures OneBrace(RowText(r))
  {
    FaceHasOneBrace(r.face);
    QIsPlain(r.text);
    PrependPlain(Q(r.text), FaceText(r.face));
    QIsPlain("text");
    PrependPlain(Pat("text"), Q(r.text) + FaceText(r.face));
    PartIsPlain("code", r.code);
    PrependPlain(Part("code", r.code), FromText(r));
    PartIsPlain("level", r.level);
    PrependPlain(Part("level", r.level), Part("code", r.code) + FromText(r));
    PrependPlain("{", Part("level", r.level) + (Part("code", r.code) + FromText(r)));
  }

  lemma FaceHasOneBrace(face: string)
    requires PlainText(face)
    ensures OneBrace(FaceText(face))
  {
    assert "}"[..0] == "";
    if face != "" {
      QIsPlain(face);
      PrependPlain(Q(face), "}");
      QIsPlain("face");
      PrependPlain(Pat("face"), Q(face) + "}");
      PrependPlain(", ", Pat("face") + (Q(face) + "}"));
    }
  }

  /** The first object of a text that starts with one is that one. */
  lemma FirstObject(t: string, rest: string)
    requires OneBrace(t) && t[0] == '{'
    ensures NextObject(t + rest) == Some((0, |t|))
  {
    var n := |t| - 1;
    assert (t + rest)[0..] == t + rest;
    FirstOfSkips(t[..n], t[n..] + rest, "}");
    Assoc(t[..n], t[n..], rest);
    assert t[..n] + t[n..] == t;
    assert FirstOf(t[n..] + rest, "}") == Some(0);
  }

  lemma {:induction false} RowsReadBack(rows: seq<Row>)
    requires forall r :: r in rows ==> PlainRow(r)
    ensures RowsOf(RowsText(rows)) == rows
    decreases |rows|
  {
    if rows != [] {
      assert rows == [rows[0]] + rows[1..];
      RowsReadBack(rows[1..]);
      if |rows| == 1 {
        OneRow(rows[0], "");
        assert RowText(rows[0]) + "" == RowText(rows[0]);
      } else {
        OneRow(rows[0], ", " + RowsText(rows[1..]));
        SkipComma(RowsText(rows[1..]));
      }
    }
  }

  lemma OneRow(r: Row, rest: string)
    requires PlainRow(r)
    ensures RowsOf(RowText(r) + rest) == [r] + RowsOf(rest)
  {
    RowHasOneBrace(r);
    RowReadsBack(r);
    assert RowText(r)[0] == '{';
    OneRowThen(RowText(r), rest);
  }

  lemma OneRowThen(t: string, rest: string)
    requires OneBrace(t) && t[0] == '{'
    ensures RowsOf(t + rest) == [RowOf(t)] + RowsOf(rest)
  {
    FirstObject(t, rest);
    assert (t + rest)[0..|t|] == t && (t + rest)[|t|..] == rest;
  }

  lemma NextAfterComma(rest: string)
    ensures match NextObject(rest)
            case None => NextObject(", " + rest) == None
            case Some((a, e)) => NextObject(", " + rest) == Some((2 + a, 2 + e))
  {
    FirstOfSkips(", ", rest, "{");
    if FirstOf(rest, "{").Some? {
      var o := FirstOf(rest, "{").value;
      FirstOfFits(rest, "{");
      Later(", " + rest, rest, o, o);
    }
  }

  lemma FirstRow(cur: string, o: nat, e: nat)
    requires NextObject(cur) == Some((o, e))
    ensures RowsOf(cur) == [RowOf(cur[o..e])] + RowsOf(cur[e..])
  {
  }

  lemma NoRow(cur: string)
    requires NextObject(cur) == None
    ensures RowsOf(cur) == []
  {
  }

  lemma SkipComma(rest: string)
    ensures RowsOf(", " + rest) == RowsOf(rest)
  {
    NextAfterComma(rest);
    match NextObject(rest)
    case None =>
      NoRow(rest);
      NoRow(", " + rest);
    case Some((a, e)) =>
      SameRowLater(", " + rest, rest, a, e);
  }

  /** The first row two places later, and the same text behind it. */
  lemma SameRowLater(cur: string, rest: string, o: nat, e: nat)
    requires cur == ", " + rest && NextObject(rest) == Some((o, e)) && NextObject(cur) == Some((2 + o, 2 + e))
    ensures RowsOf(cur) == RowsOf(rest)
  {
    FirstRow(rest, o, e);
    FirstRow(cur, 2 + o, 2 + e);
    Later(cur, rest, o, e);
  }

  lemma Later(cur: string, rest: string, o: nat, e: nat)
    requires cur == ", " + rest && o <= e <= |rest|
    ensures cur[2 + o..2 + e] == rest[o..e] && cur[2 + e..] == rest[e..]
  {
  }

  lemma {:induction false} RowsTextIsClosed(rows: seq<Row>)
    requires forall r :: r in rows ==> PlainRow(r)
    ensures Free(RowsText(rows), ']')
    decreases |rows|
  {
    if rows != [] {
      RowHasOneBrace(rows[0]);
      if |rows| > 1 {
        RowsTextIsClosed(rows[1..]);
      }
    }
  }

  lemma {:induction false} SkipRows(rows: seq<Row>, rest: string, key: string, ext: string)
    requires forall r :: r in rows ==> QuoteFree(r)
    requires IsKey(key) && IsExt(ext) && key !in ["level", "code", "text", "face"]
    ensures Skips(RowsText(rows), rest, Q(key) + ext)
    decreases |rows|
  {
    var p := Q(key) + ext;
    if rows == [] {
      assert RowsText(rows) + rest == rest;
    } else if |rows| == 1 {
      SkipRow(rows[0], rest, key, ext);
    } else {
      var tail := RowsText(rows[1..]);
      SkipRows(rows[1..], rest, key, ext);
      SkipPlain(", ", tail + rest, p);
      SkipBoth(", ", tail, rest, p);
      SkipRow(rows[0], (", " + tail) + rest, key, ext);
      SkipBoth(RowText(rows[0]), ", " + tail, rest, p);
    }
  }

  // ----- the file -----------------------------------------------------------------------

  lemma KeyAt(body: string, pre: string, p: string, rest: string)
    requires body == pre + (p + rest) && Skips(pre, p + rest, p)
    ensures IndexOf(body, p) == Some(|pre|) && |pre| + |p| <= |body| && body[|pre| + |p|..] == rest
  {
    Found(p, rest);
    Assoc(pre, p, rest);
    assert (pre + p + rest)[|pre + p|..] == rest;
  }

  lemma ScalarAt(body: string, pre: string, key: string, v: string, tail: string)
    requires body == pre + (Pat(key) + (v + tail)) && Skips(pre, Pat(key) + (v + tail), Pat(key))
    requires tail != "" && tail[0] in ",}]" && (forall c :: c in v ==> c !in ",}]") && Trim(v) == v
    ensures Scalar(body, key) == Some(v)
  {
    KeyAt(body, pre, Pat(key), v + tail);
    FirstOfSkips(v, tail, ",}]");
    assert (v + tail)[..|v|] == v;
  }

  lemma NoSpaceToTrim(v: string)
    requires forall c :: c in v ==> !Space(c)
    ensures Trim(v) == v
  {
    if v != "" {
      assert v[0] in v && v[|v| - 1] in v;
    }
  }

  /** A bare value and the comma after it hold no quote. */
  lemma SkipBare(other: string, v: string, rest: string, key: string, ext: string)
    requires IsKey(other) && IsKey(key) && other != key && IsExt(ext) && Free(v, '"')
    ensures Skips(Bare(other, v), rest, Q(key) + ext)
  {
    SkipPlain(v + ", ", rest, Q(key) + ext);
    SkipKey(other, (v + ", ") + rest, key, ext);
    SkipBoth(Pat(other), v + ", ", rest, Q(key) + ext);
  }

  predicate TopKey(key: string) { key in ["ts", "boot", "rows", "faults", "warns"] }

  lemma SkipTs(r: Report, rest: string, key: string, ext: string)
    requires IsFloatText(r.ts) && TopKey(key) && key != "ts" && IsExt(ext)
    ensures Skips(TsPart(r), rest, Q(key) + ext)
  {
    FloatTextChars(r.ts);
    SkipBare("ts", r.ts, rest, key, ext);
    SkipPlain("{", Bare("ts", r.ts) + rest, Q(key) + ext);
    SkipBoth("{", Bare("ts", r.ts), rest, Q(key) + ext);
  }

  lemma SkipBoot(r: Report, rest: string, key: string, ext: string)
    requires (r.boot.Some? ==> Free(r.boot.value, '"')) && TopKey(key) && key != "boot" && IsExt(ext)
    ensures Skips(BootPart(r), rest, Q(key) + ext)
  {
    var p := Q(key) + ext;
    match r.boot
    case None => SkipBare("boot", "null", rest, key, ext);
    case Some(b) =>
      SkipPlain(", ", rest, p);
      SkipValue(b, ", " + rest, key, ext);
      SkipBoth(Q(b), ", ", rest, p);
      SkipKey("boot", (Q(b) + ", ") + rest, key, ext);
      SkipBoth(Pat("boot"), Q(b) + ", ", rest, p);
  }

  lemma SkipRowsPart(r: Report, rest: string, key: string, ext: string)
    requires (forall q :: q in r.rows ==> QuoteFree(q)) && TopKey(key) && key != "rows" && IsExt(ext)
    ensures Skips(RowsPart(r), rest, Q(key) + ext)
  {
    var p, rows := Q(key) + ext, RowsText(r.rows);
    SkipPlain("], ", rest, p);
    SkipRows(r.rows, "], " + rest, key, ext);
    SkipBoth(rows, "], ", rest, p);
    SkipPlain("[", (rows + "], ") + rest, p);
    SkipBoth("[", rows + "], ", rest, p);
    SkipKey("rows", ("[" + (rows + "], ")) + rest, key, ext);
    SkipBoth(Pat("rows"), "[" + (rows + "], "), rest, p);
  }

  /** Escaped strings the parser can read whole: rows without quote or closer, boot without quote. */
  ghost predicate Readable(r: Report) {
    && IsFloatText(r.ts)
    && (r.boot.Some? ==> Free(r.boot.value, '"'))
    && forall q :: q in r.rows ==> PlainRow(q)
  }

  lemma TsReads(r: Report)
    requires Readable(r)
    ensures Scalar(FileText(r), "ts") == Some(r.ts)
  {
    TsIsBare(r.ts);
    TsOpens(r);
    SkipPlain("{", Pat("ts") + (r.ts + (", " + FromBoot(r))), Pat("ts"));
    ScalarAt(FileText(r), "{", "ts", r.ts, ", " + FromBoot(r));
  }

  lemma TsIsBare(ts: string)
    requires IsFloatText(ts)
    ensures (forall c :: c in ts ==> c !in ",}]") && Trim(ts) == ts
  {
    FloatTextChars(ts);
    NoSpaceToTrim(ts);
  }

  lemma TsOpens(r: Report)
    ensures FileText(r) == "{" + (Pat("ts") + (r.ts + (", " + FromBoot(r))))
  {
    Assoc("{", Bare("ts", r.ts), FromBoot(r));
    BareOpens("ts", r.ts, FromBoot(r));
  }

  lemma BareOpens(key: string, v: string, rest: string)
    ensures Bare(key, v) + rest == Pat(key) + (v + (", " + rest))
  {
    Assoc(Pat(key), v + ", ", rest);
    Assoc(v, ", ", rest);
  }

  lemma BootReads(r: Report)
    requires Readable(r)
    ensures BootOf(FileText(r)) == Some(r.boot)
  {
    BareOpens("boot", BootValue(r.boot), FromRows(r));
    SkipTs(r, FromBoot(r), "boot", ": ");
    BootAt(FileText(r), TsPart(r), r.boot, ", " + FromRows(r));
  }

  lemma BootAt(body: string, pre: string, boot: Option<string>, tail: string)
    requires body == pre + (Pat("boot") + (BootValue(boot) + tail))
    requires Skips(pre, Pat("boot") + (BootValue(boot) + tail), Pat("boot"))
    requires boot.Some? ==> Free(boot.value, '"')
    ensures BootOf(body) == Some(boot)
  {
    KeyAt(body, pre, Pat("boot"), BootValue(boot) + tail);
    match boot
    case None =>
    case Some(b) => QuotedHead(b, tail);
  }

  lemma QuotedHead(b: string, tail: string)
    requires Free(b, '"')
    ensures var rest := Q(b) + tail;
            && rest != "" && rest[0] == '"'
            && FirstOf(rest[1..], "\"") == Some(|b|) && rest[1..][..|b|] == b
  {
    var rest := Q(b) + tail;
    assert rest[1..] == b + ("\"" + tail);
    FirstOfSkips(b, "\"" + tail, "\"");
    assert FirstOf("\"" + tail, "\"") == Some(0);
  }

  /** Everything before the row list. */
  function Head(r: Report): string { TsPart(r) + BootPart(r) }

  lemma SkipHead(r: Report, rest: string, key: string, ext: string)
    requires Readable(r) && (key == "rows" || key == "faults" || key == "warns") && IsExt(ext)
    ensures Skips(Head(r), rest, Q(key) + ext)
  {
    SkipBoot(r, rest, key, ext);
    SkipTs(r, BootPart(r) + rest, key, ext);
    SkipBoth(TsPart(r), BootPart(r), rest, Q(key) + ext);
  }

  lemma RowsReads(r: Report)
    requires Readable(r)
    ensures RowsArea(FileText(r)) == Some(RowsText(r.rows))
  {
    SkipHead(r, FromRows(r), "rows", ": [");
    Assoc(TsPart(r), BootPart(r), FromRows(r));
    RowsOpen(r);
    RowsTextIsClosed(r.rows);
    AreaAt(FileText(r), Head(r), RowsText(r.rows), "], " + FaultsText(r));
  }

  lemma AreaAt(body: string, pre: string, rows: string, tail: string)
    requires body == pre + ((Pat("rows") + "[") + (rows + tail))
    requires Skips(pre, (Pat("rows") + "[") + (rows + tail), Pat("rows") + "[")
    requires Free(rows, ']') && tail != "" && tail[0] == ']'
    ensures RowsArea(body) == Some(rows)
  {
    KeyAt(body, pre, Pat("rows") + "[", rows + tail);
    FirstOfSkips(rows, tail, "]");
    assert (rows + tail)[..|rows|] == rows;
  }

  lemma RowsOpen(r: Report)
    ensures FromRows(r) == (Pat("rows") + "[") + (RowsText(r.rows) + ("], " + FaultsText(r)))
    ensures Pat("rows") + "[" == Q("rows") + ": ["
  {
    var rows, faults := RowsText(r.rows), FaultsText(r);
    Assoc(Pat("rows"), "[" + (rows + "], "), faults);
    Assoc("[", rows + "], ", faults);
    Assoc(rows, "], ", faults);
    Assoc(Pat("rows"), "[", rows + ("], " + faults));
    Assoc(Q("rows"), ": ", "[");
  }

  /** Everything before the counts. */
  lemma SkipToCounts(r: Report, rest: string, key: string)
    requires Readable(r) && (key == "faults" || key == "warns")
    ensures Skips(Head(r) + RowsPart(r), rest, Pat(key))
  {
    SkipRowsPart(r, rest, key, ": ");
    SkipHead(r, RowsPart(r) + rest, key, ": ");
    SkipBoth(Head(r), RowsPart(r), rest, Pat(key));
  }

  lemma FileSplits(r: Report)
    ensures FileText(r) == (Head(r) + RowsPart(r)) + FaultsText(r)
  {
    Assoc(TsPart(r), BootPart(r), FromRows(r));
    Assoc(Head(r), RowsPart(r), FaultsText(r));
  }

  lemma NatTextIsBare(n: nat)
    ensures (forall c :: c in ShowNat(n) ==> c !in ",}]") && Free(ShowNat(n), '"') && Trim(ShowNat(n)) == ShowNat(n)
  {
    ReadsBack(n);
    NoSpaceToTrim(ShowNat(n));
  }

  lemma FaultsReads(r: Report)
    requires Readable(r)
    ensures Scalar(FileText(r), "faults") == Some(ShowNat(r.faults))
  {
    NatTextIsBare(r.faults);
    FileSplits(r);
    BareOpens("faults", ShowNat(r.faults), WarnsText(r));
    SkipToCounts(r, FaultsText(r), "faults");
    ScalarAt(FileText(r), Head(r) + RowsPart(r), "faults", ShowNat(r.faults), ", " + WarnsText(r));
  }

  lemma WarnsReads(r: Report)
    requires Readable(r)
    ensures Scalar(FileText(r), "warns") == Some(ShowNat(r.warns))
  {
    var pre, faults := Head(r) + RowsPart(r), Bare("faults", ShowNat(r.faults));
    NatTextIsBare(r.faults);
    NatTextIsBare(r.warns);
    FileSplits(r);
    SkipBare("faults", ShowNat(r.faults), WarnsText(r), "warns", ": ");
    SkipToCounts(r, faults + WarnsText(r), "warns");
    SkipBoth(pre, faults, WarnsText(r), Pat("warns"));
    Assoc(pre, faults, WarnsText(r));
    ScalarAt(FileText(r), pre + faults, "warns", ShowNat(r.warns), "}");
  }

  /** A readable file reads back, whole; only the condition is not in it. */
  lemma FileReadsBack(r: Report)
    requires Readable(r)
    ensures Parse(FileText(r)) == Some(r.(condition := ""))
  {
    var body := FileText(r);
    StartsAtOnce(r);
    assert body[0..] == body;
    TsReads(r);
    BootReads(r);
    RowsReads(r);
    RowsReadBack(r.rows);
    FaultsReads(r);
    WarnsReads(r);
    ReadsBack(r.faults);
    ReadsBack(r.warns);
  }

  lemma StartsAtOnce(r: Report)
    ensures IndexOf(FileText(r), "{\"ts\":") == Some(0)
  {
    var p, rest := "{\"ts\":", r.ts + (", " + FromBoot(r));
    TsOpens(r);
    assert "{" + (Pat("ts") + rest) == p + (" " + rest);
  }

  // ----- the result ---------------------------------------------------------------------

  /** A character that prints as itself. */
  predicate Verbatim(c: char) { c != '"' && c != '\\' && !Control(c) }

  ghost predicate VerbatimText(s: string) { forall c :: c in s ==> Verbatim(c) }

  /** What a caller can check before printing: nothing that needs an escape anywhere, and no
      closing bracket or brace in a row. */
  ghost predicate Clean(r: Report) {
    && (r.boot.Some? ==> VerbatimText(r.boot.value))
    && forall q :: q in r.rows ==> CleanRow(q)
  }

  ghost predicate CleanText(s: string) { VerbatimText(s) && Free(s, ']') && Free(s, '}') }

  ghost predicate CleanRow(q: Row) {
    CleanText(q.level) && CleanText(q.code) && CleanText(q.text) && CleanText(q.face)
  }

  /** Escaping leaves a text alone exactly when every character prints as itself. */
  lemma {:induction false} EscapesNothing(s: string)
    ensures |Esc(s)| >= |s|
    ensures Esc(s) == s <==> VerbatimText(s)
  {
    if s != "" {
      var init, c := s[..|s| - 1], s[|s| - 1];
      EscapesNothing(init);
      assert s == init + [c];
      assert Verbatim(c) ==> EscChar(c) == [c];
      assert !Verbatim(c) ==> |EscChar(c)| >= 2;
    }
  }

  lemma {:induction false} EscapesKeepPlain(s: string, c: char)
    requires c == '"' || c == ']' || c == '}'
    requires Free(s, c)
    ensures Free(Esc(s), c)
  {
    if s != "" {
      EscapesKeepPlain(s[..|s| - 1], c);
      assert s[|s| - 1] in s;
      EscCharKeeps(s[|s| - 1], c);
    }
  }

  lemma EscCharKeeps(x: char, c: char)
    requires (c == '"' || c == ']' || c == '}') && x != c
    ensures c !in EscChar(x)
  {
    if Control(x) {
      HexIsPlain(x as int / 16, c);
      HexIsPlain(x as int % 16, c);
    }
  }

  lemma HexIsPlain(n: nat, c: char)
    requires n < 16 && (c == '"' || c == ']' || c == '}')
    ensures Hex(n) != c
  {
  }

  /** For every report whose strings hold no quote, and whose rows no closer: the parser gives the
      report back with each string as it was escaped, for it never undoes an escape. */
  lemma ParsesBackEscaped(r: Report)
    requires IsFloatText(r.ts) && (r.boot.Some? ==> Free(r.boot.value, '"'))
    requires forall q :: q in r.rows ==> PlainRow(q)
    ensures Parse(Json(r)) == Some(Escaped(r).(condition := ""))
  {
    var e := Escaped(r);
    if r.boot.Some? {
      EscapesKeepPlain(r.boot.value, '"');
    }
    forall q | q in e.rows ensures PlainRow(q) {
      var i :| 0 <= i < |e.rows| && e.rows[i] == q;
      assert r.rows[i] in r.rows;
      EscRowIsPlain(r.rows[i]);
    }
    FileReadsBack(e);
  }

  lemma EscRowIsPlain(q: Row)
    requires PlainRow(q)
    ensures PlainRow(EscRow(q))
  {
    EscIsPlain(q.level);
    EscIsPlain(q.code);
    EscIsPlain(q.text);
    EscIsPlain(q.face);
  }

  lemma EscIsPlain(s: string)
    requires PlainText(s)
    ensures PlainText(Esc(s))
  {
    EscapesKeepPlain(s, '"');
    EscapesKeepPlain(s, ']');
    EscapesKeepPlain(s, '}');
  }

  /** A report comes back from its file unchanged, for any number of rows, if and only if it is
      clean.  The condition is not in the file. */
  lemma RoundTripsExactlyWhenClean(r: Report)
    requires IsFloatText(r.ts)
    ensures Parse(Json(r)) == Some(r.(condition := "")) <==> Clean(r)
  {
    var back := r.(condition := "");
    if Parse(Json(r)) == Some(back) {
      ParsedIsPlain(Json(r));
      ParsesBackEscaped(r);
      assert Escaped(r).(condition := "") == back;
      UnescapedIsClean(r);
    }
    if Clean(r) {
      CleanIsUnescaped(r);
      ParsesBackEscaped(r);
    }
  }

  lemma UnescapedIsClean(r: Report)
    requires Escaped(r).boot == r.boot && Escaped(r).rows == r.rows
    requires forall q :: q in r.rows ==> PlainRow(q)
    ensures Clean(r)
  {
    if r.boot.Some? {
      EscapesNothing(r.boot.value);
    }
    forall q | q in r.rows ensures CleanRow(q) {
      var i :| 0 <= i < |r.rows| && r.rows[i] == q;
      assert Escaped(r).rows[i] == EscRow(q);
      EscapesNothing(q.level);
      EscapesNothing(q.code);
      EscapesNothing(q.text);
      EscapesNothing(q.face);
    }
  }

  lemma CleanIsUnescaped(r: Report)
    requires Clean(r)
    ensures Escaped(r) == r
    ensures forall q :: q in r.rows ==> PlainRow(q)
    ensures r.boot.Some? ==> Free(r.boot.value, '"')
  {
    if r.boot.Some? {
      EscapesNothing(r.boot.value);
    }
    forall i | 0 <= i < |r.rows| ensures EscRow(r.rows[i]) == r.rows[i] && PlainRow(r.rows[i]) {
      assert r.rows[i] in r.rows;
      CleanRowIsUnescaped(r.rows[i]);
    }
    assert EscRows(r.rows) == r.rows;
  }

  lemma CleanRowIsUnescaped(q: Row)
    requires CleanRow(q)
    ensures EscRow(q) == q && PlainRow(q)
  {
    EscapesNothing(q.level);
    EscapesNothing(q.code);
    EscapesNothing(q.text);
    EscapesNothing(q.face);
  }
}
