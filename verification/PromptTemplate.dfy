/** `xf.ai.prompt`: a template is pieces of text and columns in braces; a brace in
    the text is written twice. */
module PromptTemplate {
  import opened Common

  datatype Piece = Text(text: string) | Column(name: string)

  datatype Fault = Unclosed | Unopened | EmptyName

  predicate Brace(c: char) {
    c == '{' || c == '}'
  }

  /** Everything up to the first brace. */
  function UpToBrace(s: string): (n: nat)
    ensures n <= |s| && (n < |s| ==> Brace(s[n]))
    ensures forall i :: 0 <= i < n ==> !Brace(s[i])
  {
    if s == "" || Brace(s[0]) then 0 else 1 + UpToBrace(s[1..])
  }

  function TextOf(literal: string): seq<Piece> {
    if literal == "" then [] else [Text(literal)]
  }

  function Prepend(pieces: seq<Piece>, r: Result<seq<Piece>, Fault>): Result<seq<Piece>, Fault> {
    match r
    case Ok(rest) => Ok(pieces + rest)
    case Err(_) => r
  }

  /** The pieces of `s` when `literal` is the text before it, or the first fault. */
  function Parse(s: string, literal: string): Result<seq<Piece>, Fault> {
    if s == "" then Ok(TextOf(literal))
    else if Brace(s[0]) && |s| > 1 && s[1] == s[0] then Parse(s[2..], literal + [s[0]])
    else if s[0] == '{' then
      var n := 1 + UpToBrace(s[1..]);
      if n == |s| || s[n] == '{' then Err(Unclosed)
      else
        var name := Trim(s[1..n]);
        if name == "" then Err(EmptyName)
        else Prepend(TextOf(literal) + [Column(name)], Parse(s[n + 1..], ""))
    else if s[0] == '}' then Err(Unopened)
    else Parse(s[1..], literal + [s[0]])
  }

  lemma PrependJoins(a: seq<Piece>, b: seq<Piece>, r: Result<seq<Piece>, Fault>)
    ensures Prepend(a, Prepend(b, r)) == Prepend(a + b, r) && Prepend([], r) == r
  {
    if r.Ok? {
      assert a + (b + r.value) == a + b + r.value && [] + r.value == r.value;
    }
  }

  /** The characters of a placeholder's name, from `at` to the next brace. */
  method ReadName(source: string, at: nat) returns (name: string, end: nat)
    requires at <= |source|
    ensures end == at + UpToBrace(source[at..]) && name == source[at..end]
  {
    name, end := "", at;
    while end < |source| && !Brace(source[end])
      invariant at <= end <= |source| && name == source[at..end]
      invariant forall i :: at <= i < end ==> !Brace(source[i])
    {
      name, end := name + [source[end]], end + 1;
    }
    NameEnds(source[at..], end - at);
  }

  lemma {:induction false} NameEnds(s: string, n: nat)
    requires n <= |s| && (forall i :: 0 <= i < n ==> !Brace(s[i])) && (n < |s| ==> Brace(s[n]))
    ensures n == UpToBrace(s)
  {
  }

  /** What the scan has done so far, and what it has yet to do. */
  ghost predicate Scanned(source: string, at: nat, pieces: seq<Piece>, literal: string) {
    at <= |source| && Parse(source, "") == Prepend(pieces, Parse(source[at..], literal))
  }

  lemma {:induction false} ColumnScanned(source: string, at: nat, end: nat, pieces: seq<Piece>, literal: string)
    requires at < |source| && Scanned(source, at, pieces, literal) && end == at + 1 + UpToBrace(source[at + 1..])
    requires source[at] == '{' && !(at + 1 < |source| && source[at + 1] == '{')
    ensures end == |source| || source[end] == '{' ==> Parse(source, "") == Err(Unclosed)
    ensures end < |source| && source[end] != '{' ==>
              var name := Trim(source[at + 1..end]);
              if name == "" then Parse(source, "") == Err(EmptyName)
              else Scanned(source, end + 1, pieces + TextOf(literal) + [Column(name)], "")
  {
    var rest := source[at..];
    assert rest[1..] == source[at + 1..];
    if end < |source| && source[end] != '{' {
      var name := Trim(source[at + 1..end]);
      assert rest[1..end - at] == source[at + 1..end] && rest[end - at + 1..] == source[end + 1..];
      PrependJoins(pieces, TextOf(literal) + [Column(name)], Parse(source[end + 1..], ""));
      assert pieces + (TextOf(literal) + [Column(name)]) == pieces + TextOf(literal) + [Column(name)];
    }
  }

  lemma CharScanned(source: string, at: nat, n: nat, pieces: seq<Piece>, literal: string)
    requires at < |source| && Scanned(source, at, pieces, literal)
    requires if at + 1 < |source| && Brace(source[at]) && source[at + 1] == source[at] then n == 2 else n == 1 && !Brace(source[at])
    ensures Scanned(source, at + n, pieces, literal + [source[at]])
  {
    assert source[at..][n..] == source[at + n..];
  }

  /** A placeholder, and the text before it. */
  method TakeColumn(source: string, at: nat, pieces: seq<Piece>, literal: string) returns (fault: Option<Fault>, now: nat, more: seq<Piece>)
    requires at < |source| && Scanned(source, at, pieces, literal)
    requires source[at] == '{' && !(at + 1 < |source| && source[at + 1] == '{')
    ensures fault.Some? ==> Parse(source, "") == Err(fault.value)
    ensures fault.None? ==> at < now && Scanned(source, now, more, "")
  {
    var name, end := ReadName(source, at + 1);
    now, more, fault := at, pieces, None;
    ColumnScanned(source, at, end, pieces, literal);
    if end == |source| || source[end] == '{' { return Some(Unclosed), now, more; }
    name, now := Trim(name), end + 1;
    if name == "" { return Some(EmptyName), now, more; }
    WithText(pieces, literal);
    if literal != "" { more := more + [Text(literal)]; }
    more := more + [Column(name)];
  }

  lemma WithText(pieces: seq<Piece>, literal: string)
    ensures pieces + TextOf(literal) == if literal != "" then pieces + [Text(literal)] else pieces
  {
  }

  /** Scan a template character by character. */
  method Template(source: string) returns (r: Result<seq<Piece>, Fault>)
    ensures r == Parse(source, "")
  {
    var pieces, literal, at := [], "", 0;
    PrependJoins([], [], Parse(source, ""));
    assert source[0..] == source;
    while at < |source|
      invariant Scanned(source, at, pieces, literal)
    {
      var c := source[at];
      if Brace(c) && at + 1 < |source| && source[at + 1] == c {
        CharScanned(source, at, 2, pieces, literal);
        literal, at := literal + [c], at + 2;
      } else if c == '{' {
        var fault;
        fault, at, pieces := TakeColumn(source, at, pieces, literal);
        if fault.Some? { return Err(fault.value); }
        literal := "";
      } else if c == '}' {
        return Err(Unopened);
      } else {
        CharScanned(source, at, 1, pieces, literal);
        literal, at := literal + [c], at + 1;
      }
    }
    assert source[at..] == "";
    WithText(pieces, literal);
    if literal != "" { pieces := pieces + [Text(literal)]; }
    r := Ok(pieces);
  }

  // -------------------------------------------------------------------------
  // The printer it inverts
  // -------------------------------------------------------------------------

  function Doubled(text: string): string {
    if text == "" then "" else (if Brace(text[0]) then [text[0], text[0]] else [text[0]]) + Doubled(text[1..])
  }

  function Print(pieces: seq<Piece>): string {
    if pieces == [] then ""
    else (match pieces[0]
          case Text(text) => Doubled(text)
          case Column(name) => "{" + name + "}") + Print(pieces[1..])
  }

  predicate NormalPiece(piece: Piece) {
    match piece
    case Text(text) => text != ""
    case Column(name) => name != "" && Trimmed(name) && forall c :: c in name ==> !Brace(c)
  }

  /** No empty or neighbouring texts; names trimmed, not empty, without braces. */
  predicate Normal(pieces: seq<Piece>) {
    && (forall i :: 0 <= i < |pieces| ==> NormalPiece(pieces[i]))
    && forall i :: 0 < i < |pieces| ==> !(pieces[i - 1].Text? && pieces[i].Text?)
  }

  lemma {:induction false} DoubledParses(text: string, rest: string, literal: string)
    ensures Parse(Doubled(text) + rest, literal) == Parse(rest, literal + text)
  {
    if text == "" {
      assert Doubled(text) + rest == rest && literal + text == literal;
    } else {
      var s, tail := Doubled(text) + rest, Doubled(text[1..]) + rest;
      assert s == (if Brace(text[0]) then [text[0], text[0]] else [text[0]]) + tail;
      assert if Brace(text[0]) then s[2..] == tail else s[1..] == tail;
      DoubledParses(text[1..], rest, literal + [text[0]]);
      assert literal + [text[0]] + text[1..] == literal + text;
    }
  }

  /** A placeholder names a column, white space around it aside. */
  predicate Names(raw: string, name: string) {
    name == Trim(raw) && name != "" && forall c :: c in raw ==> !Brace(c)
  }

  lemma {:induction false} ColumnParses(raw: string, name: string, rest: string, literal: string)
    requires Names(raw, name)
    ensures Parse("{" + raw + "}" + rest, literal) == Prepend(TextOf(literal) + [Column(name)], Parse(rest, ""))
  {
    var s := "{" + raw + "}" + rest;
    assert raw[0] in raw;
    forall i | 1 <= i < 1 + |raw| ensures !Brace(s[i]) { assert s[i] in raw; }
    assert forall i :: 0 <= i < |s| - 1 ==> s[1..][i] == s[i + 1];
    NameEnds(s[1..], |raw|);
    assert s[1..1 + |raw|] == raw && s[2 + |raw|..] == rest;
  }

  lemma {:induction false} TextFirst(text: string, rest: seq<Piece>)
    requires Parse(Print(rest), text) == Ok(TextOf(text) + rest) && text != ""
    ensures Parse(Print([Text(text)] + rest), "") == Ok([Text(text)] + rest)
  {
    assert ([Text(text)] + rest)[1..] == rest;
    DoubledParses(text, Print(rest), "");
    assert "" + text == text;
  }

  lemma {:induction false} ColumnFirst(name: string, rest: seq<Piece>, literal: string)
    requires Parse(Print(rest), "") == Ok(rest) && NormalPiece(Column(name))
    ensures Parse(Print([Column(name)] + rest), literal) == Ok(TextOf(literal) + ([Column(name)] + rest))
  {
    assert ([Column(name)] + rest)[1..] == rest;
    ColumnParses(name, name, Print(rest), literal);
    Assoc(TextOf(literal), [Column(name)], rest);
  }

  lemma {:induction false} PrintedParses(pieces: seq<Piece>, literal: string)
    requires Normal(pieces) && (literal != "" && pieces != [] ==> pieces[0].Column?)
    ensures Parse(Print(pieces), literal) == Ok(TextOf(literal) + pieces)
  {
    Assoc(TextOf(literal), [], []);
    if pieces != [] {
      var rest := pieces[1..];
      assert pieces == [pieces[0]] + rest && NormalPiece(pieces[0]);
      NormalRest(pieces);
      Assoc(rest, [], []);
      match pieces[0]
      case Text(text) =>
        PrintedParses(rest, text);
        TextFirst(text, rest);
        Assoc(pieces, [], []);
      case Column(name) =>
        PrintedParses(rest, "");
        ColumnFirst(name, rest, literal);
    }
  }

  lemma NormalRest(pieces: seq<Piece>)
    requires Normal(pieces) && pieces != []
    ensures Normal(pieces[1..]) && (pieces[0].Text? && |pieces| > 1 ==> pieces[1].Column?)
  {
    var rest := pieces[1..];
    assert forall i :: 0 <= i < |rest| ==> rest[i] == pieces[i + 1];
  }

  /** Every list of pieces in normal form comes back from what it prints as. */
  lemma {:induction false} TemplateInvertsPrint(pieces: seq<Piece>)
    requires Normal(pieces)
    ensures Parse(Print(pieces), "") == Ok(pieces)
  {
    PrintedParses(pieces, "");
    assert TextOf("") + pieces == pieces;
  }

  lemma {:induction false} ParsesToNormal(s: string, literal: string)
    requires Parse(s, literal).Ok?
    ensures Normal(Parse(s, literal).value)
    decreases |s|
  {
    if s == "" {
    } else if Brace(s[0]) && |s| > 1 && s[1] == s[0] {
      ParsesToNormal(s[2..], literal + [s[0]]);
    } else if s[0] == '{' {
      var n := 1 + UpToBrace(s[1..]);
      var rest, name := Parse(s[n + 1..], ""), Trim(s[1..n]);
      ParsesToNormal(s[n + 1..], "");
      forall c | c in name ensures !Brace(c) {
        var i :| 0 <= i < |s[1..n]| && s[1..n][i] == c;
        assert !Brace(s[1..][i]);
      }
      assert Parse(s, literal) == Ok(TextOf(literal) + [Column(name)] + rest.value);
    } else {
      ParsesToNormal(s[1..], literal + [s[0]]);
    }
  }

  /** What is accepted is in normal form, so printing it and parsing again gives
      the same pieces. */
  lemma {:induction false} AcceptedIsNormal(source: string)
    requires Parse(source, "").Ok?
    ensures Normal(Parse(source, "").value)
    ensures Parse(Print(Parse(source, "").value), "") == Parse(source, "")
  {
    ParsesToNormal(source, "");
    TemplateInvertsPrint(Parse(source, "").value);
  }

  // -------------------------------------------------------------------------
  // What the model is asked
  // -------------------------------------------------------------------------

  /** A row's prompt; a column it lacks is empty. */
  function Prompt(pieces: seq<Piece>, row: map<string, string>): string {
    if pieces == [] then ""
    else (match pieces[0]
          case Text(text) => text
          case Column(name) => if name in row then row[name] else "") + Prompt(pieces[1..], row)
  }

  lemma {:induction false} PromptJoins(a: seq<Piece>, b: seq<Piece>, row: map<string, string>)
    ensures Prompt(a + b, row) == Prompt(a, row) + Prompt(b, row)
  {
    if a == [] {
      assert a + b == b;
    } else {
      assert (a + b)[1..] == a[1..] + b;
      PromptJoins(a[1..], b, row);
    }
  }

  /** Text with its braces doubled is sent as it stands, whatever the row. */
  lemma {:induction false} DoubledIsLiteral(text: string, row: map<string, string>)
    ensures Parse(Doubled(text), "").Ok? && Prompt(Parse(Doubled(text), "").value, row) == text
  {
    DoubledParses(text, "", "");
    assert Doubled(text) + "" == Doubled(text) && "" + text == text;
    if text != "" { assert Prompt([Text(text)], row) == text + Prompt([], row); }
  }

  /** A template of texts with a placeholder between each two, and what it is to
      become. */
  function Source(texts: seq<string>, raws: seq<string>): string
    requires |texts| == |raws| + 1
  {
    if raws == [] then Doubled(texts[0]) else Doubled(texts[0]) + ("{" + raws[0] + "}" + Source(texts[1..], raws[1..]))
  }

  function Sent(texts: seq<string>, values: seq<string>): string
    requires |texts| == |values| + 1
  {
    if values == [] then texts[0] else texts[0] + values[0] + Sent(texts[1..], values[1..])
  }

  /** The row's values for some columns; nothing for one it lacks. */
  predicate ValuesOf(row: map<string, string>, names: seq<string>, values: seq<string>) {
    |values| == |names| && forall i :: 0 <= i < |names| ==> values[i] == if names[i] in row then row[names[i]] else ""
  }

  lemma {:induction false} TextSent(text: string, rest: seq<Piece>, row: map<string, string>)
    ensures Prompt(TextOf(text) + rest, row) == text + Prompt(rest, row)
  {
    PromptJoins(TextOf(text), rest, row);
    if text != "" { assert [Text(text)][1..] == [] && Prompt([Text(text)], row) == text + Prompt([], row); }
  }

  lemma {:induction false} ColumnSent(name: string, rest: seq<Piece>, row: map<string, string>)
    ensures Prompt([Column(name)] + rest, row) == (if name in row then row[name] else "") + Prompt(rest, row)
  {
    assert ([Column(name)] + rest)[1..] == rest;
  }

  /** Each placeholder is filled with its own column's value of the row, and the
      text around them is sent as it stands. */
  lemma {:induction false} PlaceholdersFilled(texts: seq<string>, raws: seq<string>, names: seq<string>, row: map<string, string>, values: seq<string>)
    requires |texts| == |raws| + 1 && |names| == |raws| && forall i :: 0 <= i < |raws| ==> Names(raws[i], names[i])
    requires ValuesOf(row, names, values)
    ensures Parse(Source(texts, raws), "").Ok?
    ensures Prompt(Parse(Source(texts, raws), "").value, row) == Sent(texts, values)
  {
    if raws == [] {
      DoubledIsLiteral(texts[0], row);
    } else {
      var rest := Source(texts[1..], raws[1..]);
      PlaceholdersFilled(texts[1..], raws[1..], names[1..], row, values[1..]);
      OneFilled(texts[0], raws[0], names[0], rest, row);
    }
  }

  lemma {:induction false} OneFilled(text: string, raw: string, name: string, rest: string, row: map<string, string>)
    requires Names(raw, name) && Parse(rest, "").Ok?
    ensures Parse(Doubled(text) + ("{" + raw + "}" + rest), "").Ok?
    ensures Prompt(Parse(Doubled(text) + ("{" + raw + "}" + rest), "").value, row)
         == text + (if name in row then row[name] else "") + Prompt(Parse(rest, "").value, row)
  {
    var pieces := Parse(rest, "").value;
    OneParsed(text, raw, name, rest);
    TextSent(text, [Column(name)] + pieces, row);
    ColumnSent(name, pieces, row);
    Assoc(text, if name in row then row[name] else "", Prompt(pieces, row));
  }

  lemma {:induction false} OneParsed(text: string, raw: string, name: string, rest: string)
    requires Names(raw, name) && Parse(rest, "").Ok?
    ensures Parse(Doubled(text) + ("{" + raw + "}" + rest), "") == Ok(TextOf(text) + ([Column(name)] + Parse(rest, "").value))
  {
    DoubledParses(text, "{" + raw + "}" + rest, "");
    assert "" + text == text;
    ColumnParses(raw, name, rest, text);
    Assoc(TextOf(text), [Column(name)], Parse(rest, "").value);
  }

  /** With one placeholder. */
  lemma {:induction false} PlaceholderFilled(a: string, name: string, b: string, row: map<string, string>)
    requires NormalPiece(Column(name))
    ensures var source := Doubled(a) + "{" + name + "}" + Doubled(b);
      Parse(source, "").Ok? && Prompt(Parse(source, "").value, row) == a + (if name in row then row[name] else "") + b
  {
    DoubledIsLiteral(b, row);
    OneFilled(a, name, name, Doubled(b), row);
    assert Doubled(a) + "{" + name + "}" + Doubled(b) == Doubled(a) + ("{" + name + "}" + Doubled(b));
  }
}
