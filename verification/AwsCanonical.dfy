/** The canonical forms that AWS's Signature Version 4 signs: percent-encoding, the
    path and the query. */
module AwsCanonical {
  import opened Common

  type Byte = b: int | 0 <= b < 256

  type Text = seq<Byte>

  // -------------------------------------------------------------------------
  // Percent-encoding
  // -------------------------------------------------------------------------

  const PERCENT: Byte := '%' as int
  const PLUS: Byte := '+' as int
  const SLASH: Byte := '/' as int
  const DOT: Byte := '.' as int
  const AND: Byte := '&' as int
  const EQUALS: Byte := '=' as int

  /** RFC 3986's unreserved characters, section 2.3. */
  predicate Unreserved(b: Byte) {
    || 'A' as int <= b <= 'Z' as int || 'a' as int <= b <= 'z' as int || '0' as int <= b <= '9' as int
    || b == '-' as int || b == DOT || b == '_' as int || b == '~' as int
  }

  function HexDigit(n: nat): Byte
    requires n < 16
  {
    if n < 10 then '0' as int + n else 'A' as int + n - 10
  }

  function HexValue(b: Byte): Option<nat> {
    if '0' as int <= b <= '9' as int then Some(b - '0' as int)
    else if 'A' as int <= b <= 'F' as int then Some(b - 'A' as int + 10)
    else if 'a' as int <= b <= 'f' as int then Some(b - 'a' as int + 10)
    else None
  }

  function EncodeByte(b: Byte, keepSlash: bool): Text {
    if Unreserved(b) || (b == SLASH && keepSlash) then [b] else [PERCENT, HexDigit(b / 16), HexDigit(b % 16)]
  }

  function Encode(text: Text, keepSlash: bool): Text {
    if text == [] then [] else Encode(text[..|text| - 1], keepSlash) + EncodeByte(text[|text| - 1], keepSlash)
  }

  method UriEncode(text: Text, keepSlash: bool) returns (out: Text)
    ensures out == Encode(text, keepSlash)
  {
    out := [];
    for i := 0 to |text|
      invariant out == Encode(text[..i], keepSlash)
    {
      assert text[..i + 1][..i] == text[..i];
      out := out + EncodeByte(text[i], keepSlash);
    }
    assert text[..|text|] == text;
  }

  /** The byte two characters after a `%` stand for. A sign may come before a
      single digit. */
  function Escape(a: Byte, b: Byte): Option<Byte> {
    if HexValue(b).None? then None
    else if a == PLUS then Some(HexValue(b).value)
    else if HexValue(a).Some? then Some(16 * HexValue(a).value + HexValue(b).value)
    else None
  }

  function Decode(text: Text): Text {
    if text == [] then []
    else if text[0] == PERCENT && |text| > 2 && Escape(text[1], text[2]).Some? then [Escape(text[1], text[2]).value] + Decode(text[3..])
    else [text[0]] + Decode(text[1..])
  }

  /** Undo percent-encoding, leaving what is no escape as it was. */
  method UriDecode(text: Text) returns (out: Text)
    ensures out == Decode(text)
  {
    out := [];
    var i := 0;
    while i < |text|
      invariant i <= |text| && Decode(text) == out + Decode(text[i..])
    {
      ghost var rest := text[i..];
      assert rest[1..] == text[i + 1..];
      var escape := if text[i] == PERCENT && i + 2 < |text| then Escape(text[i + 1], text[i + 2]) else None;
      if escape.Some? {
        assert rest[3..] == text[i + 3..];
        Assoc(out, [escape.value], Decode(text[i + 3..]));
        out, i := out + [escape.value], i + 3;
      } else {
        Assoc(out, [text[i]], Decode(text[i + 1..]));
        out, i := out + [text[i]], i + 1;
      }
    }
  }

  lemma HexTells(n: nat)
    requires n < 16
    ensures HexValue(HexDigit(n)) == Some(n)
  {
  }

  lemma {:induction false} DecodeByte(b: Byte, keepSlash: bool, rest: Text)
    ensures Decode(EncodeByte(b, keepSlash) + rest) == [b] + Decode(rest)
  {
    var text := EncodeByte(b, keepSlash) + rest;
    if Unreserved(b) || (b == SLASH && keepSlash) {
      assert text[1..] == rest;
    } else {
      HexTells(b / 16);
      HexTells(b % 16);
      assert text[0] == PERCENT && text[1] == HexDigit(b / 16) && text[2] == HexDigit(b % 16) && text[3..] == rest;
      assert Escape(text[1], text[2]) == Some(b);
    }
  }

  lemma {:induction false} DecodeEncoded(text: Text, keepSlash: bool, rest: Text)
    ensures Decode(Encode(text, keepSlash) + rest) == text + Decode(rest)
  {
    if text == [] {
      assert Encode(text, keepSlash) + rest == rest;
    } else {
      var b, e := text[|text| - 1], EncodeByte(text[|text| - 1], keepSlash);
      Assoc(Encode(text[..|text| - 1], keepSlash), e, rest);
      DecodeEncoded(text[..|text| - 1], keepSlash, e + rest);
      DecodeByte(b, keepSlash, rest);
      Assoc(text[..|text| - 1], [b], Decode(rest));
      assert text[..|text| - 1] + [b] == text;
    }
  }

  /** Decoding gives back what was encoded, whatever the bytes. */
  lemma {:induction false} DecodeInvertsEncode(text: Text, keepSlash: bool)
    ensures Decode(Encode(text, keepSlash)) == text
  {
    DecodeEncoded(text, keepSlash, []);
    assert Encode(text, keepSlash) + [] == Encode(text, keepSlash);
    assert text + Decode([]) == text;
  }

  lemma {:induction false} EncodedHasNo(text: Text, b: Byte)
    requires !Unreserved(b) && b != PERCENT
    ensures b !in Encode(text, false)
  {
    if text != [] {
      EncodedHasNo(text[..|text| - 1], b);
    }
  }

  /** `c` is the digit for `n`, capital or not. */
  predicate IsHex(c: Byte, n: nat) {
    if n < 10 then c == 48 + n else n < 16 && (c == 55 + n || c == 87 + n)
  }

  lemma {:induction false} EncodeJoins(a: Text, b: Text, keepSlash: bool)
    ensures Encode(a + b, keepSlash) == Encode(a, keepSlash) + Encode(b, keepSlash)
    decreases |b|
  {
    if b == [] {
      assert a + b == a;
    } else {
      assert (a + b)[..|a + b| - 1] == a + b[..|b| - 1];
      EncodeJoins(a, b[..|b| - 1], keepSlash);
    }
  }

  /** Text is encoded byte by byte: a letter, a digit, one of `-._~`, or a slash that
      is kept, as it is; another as `%` and two digits, neither a small letter. */
  lemma {:induction false} EncodedBytes(before: Text, b: Byte, after: Text, keepSlash: bool)
    ensures Encode(before + [b] + after, keepSlash) == Encode(before, keepSlash) + Encode([b], keepSlash) + Encode(after, keepSlash)
    ensures EncodesTo(b, keepSlash, Encode([b], keepSlash))
  {
    EncodeJoins(before + [b], after, keepSlash);
    EncodeJoins(before, [b], keepSlash);
    OneEncoded(b, keepSlash);
  }

  predicate EncodesTo(b: Byte, keepSlash: bool, e: Text) {
    if 65 <= b <= 90 || 97 <= b <= 122 || 48 <= b <= 57 || b in {45, 46, 95, 126} || (b == 47 && keepSlash) then e == [b]
    else |e| == 3 && e[0] == 37 && IsHex(e[1], b / 16) && IsHex(e[2], b % 16) && e[1] < 97 && e[2] < 97
  }

  lemma {:induction false} OneEncoded(b: Byte, keepSlash: bool)
    ensures EncodesTo(b, keepSlash, Encode([b], keepSlash))
  {
    assert [b][..0] == [] && Encode([b], keepSlash) == [] + EncodeByte(b, keepSlash);
    assert [] + EncodeByte(b, keepSlash) == EncodeByte(b, keepSlash);
    ByteEncoded(b, keepSlash);
  }

  lemma ByteEncoded(b: Byte, keepSlash: bool)
    ensures EncodesTo(b, keepSlash, EncodeByte(b, keepSlash))
  {
  }

  /** Two digits after a `%`, capital or not, are a byte, and so is a digit after a
      plus sign. What is no escape stays. */
  lemma {:induction false} DecodedEscapes(c: Byte, d: Byte, m: nat, n: nat, rest: Text)
    requires IsHex(d, n)
    ensures IsHex(c, m) ==> Decode([37, c, d] + rest) == [16 * m + n] + Decode(rest)
    ensures Decode([37, 43, d] + rest) == [n] + Decode(rest)
  {
    assert ([37, c, d] + rest)[3..] == rest && ([37, 43, d] + rest)[3..] == rest;
    IsHexOf(d, n);
    IsHexOf(c, m);
  }

  lemma IsHexOf(c: Byte, n: nat)
    ensures IsHex(c, n) <==> HexValue(c) == Some(n)
  {
  }

  lemma {:induction false} DecodedRest(text: Text)
    requires text != []
    requires text[0] != 37 || |text| <= 2 || (forall n: nat :: !IsHex(text[2], n)) || (text[1] != 43 && forall m: nat :: !IsHex(text[1], m))
    ensures Decode(text) == [text[0]] + Decode(text[1..])
  {
    if |text| > 2 {
      if HexValue(text[2]).Some? { IsHexOf(text[2], HexValue(text[2]).value); }
      if HexValue(text[1]).Some? { IsHexOf(text[1], HexValue(text[1]).value); }
    }
  }

  // -------------------------------------------------------------------------
  // Splitting and joining
  // -------------------------------------------------------------------------

  function Split(text: Text, sep: Byte): (parts: seq<Text>)
    ensures parts != []
  {
    if text == [] then [[]]
    else
      var rest := Split(text[1..], sep);
      if text[0] == sep then [[]] + rest else [[text[0]] + rest[0]] + rest[1..]
  }

  function Join(parts: seq<Text>, sep: Byte): Text {
    if parts == [] then []
    else if |parts| == 1 then parts[0]
    else parts[0] + [sep] + Join(parts[1..], sep)
  }

  lemma {:induction false} SplitPart(part: Text, sep: Byte, rest: Text)
    requires sep !in part
    ensures Split(part, sep) == [part]
    ensures Split(part + [sep] + rest, sep) == [part] + Split(rest, sep)
  {
    var text := part + [sep] + rest;
    if part == [] {
      assert text[1..] == rest;
    } else {
      assert part == [part[0]] + part[1..];
      assert text[1..] == part[1..] + [sep] + rest;
      SplitPart(part[1..], sep, rest);
    }
  }

  /** Parts without the separator come back from their join. */
  lemma {:induction false} SplitJoin(parts: seq<Text>, sep: Byte)
    requires parts != [] && forall i :: 0 <= i < |parts| ==> sep !in parts[i]
    ensures Split(Join(parts, sep), sep) == parts
  {
    if |parts| == 1 {
      SplitPart(parts[0], sep, []);
    } else {
      SplitJoin(parts[1..], sep);
      SplitPart(parts[0], sep, Join(parts[1..], sep));
      assert parts == [parts[0]] + parts[1..];
    }
  }

  lemma {:induction false} PartsLack(text: Text, sep: Byte)
    ensures forall i :: 0 <= i < |Split(text, sep)| ==> sep !in Split(text, sep)[i]
  {
    if text != [] { PartsLack(text[1..], sep); }
  }

  // -------------------------------------------------------------------------
  // The path
  // -------------------------------------------------------------------------

  predicate Plain(segment: Text) {
    segment != [] && segment != [DOT] && segment != [DOT, DOT]
  }

  /** The segments left, as section 5.2.4 of RFC 3986 removes dot segments, with
      empty ones dropped as well. */
  function Segments(parts: seq<Text>): (segments: seq<Text>)
    ensures forall i :: 0 <= i < |segments| ==> Plain(segments[i]) && segments[i] in parts
  {
    if parts == [] then []
    else
      var before, part := Segments(parts[..|parts| - 1]), parts[|parts| - 1];
      if part == [DOT, DOT] then if before == [] then [] else before[..|before| - 1]
      else if Plain(part) then before + [part]
      else before
  }

  /** What comes after depends only on what is left of what came before. */
  lemma {:induction false} SegmentsGoOn(a: seq<Text>, b: seq<Text>, after: seq<Text>)
    requires Segments(a) == Segments(b)
    ensures Segments(a + after) == Segments(b + after)
    decreases |after|
  {
    if after == [] {
      assert a + after == a && b + after == b;
    } else {
      var n := |after| - 1;
      assert (a + after)[..|a + after| - 1] == a + after[..n] && (b + after)[..|b + after| - 1] == b + after[..n];
      SegmentsGoOn(a, b, after[..n]);
    }
  }

  /** `.` and an empty segment go, wherever they are; `..` takes the plain segment
      before it along, and at the root goes alone. */
  lemma {:induction false} DotSegmentsGo(before: seq<Text>, plain: Text, after: seq<Text>)
    requires Plain(plain)
    ensures Segments(before + [[DOT]] + after) == Segments(before + after)
    ensures Segments(before + [[]] + after) == Segments(before + after)
    ensures Segments(before + [plain, [DOT, DOT]] + after) == Segments(before + after)
    ensures Segments([[DOT, DOT]] + after) == Segments(after)
  {
    assert (before + [[DOT]])[..|before|] == before && (before + [[]])[..|before|] == before;
    SegmentsGoOn(before + [[DOT]], before, after);
    SegmentsGoOn(before + [[]], before, after);
    PlainGoes(before, plain);
    SegmentsGoOn(before + [plain, [DOT, DOT]], before, after);
    assert [[DOT, DOT]][..0] == [] && Segments([[DOT, DOT]]) == [] && [] + after == after;
    SegmentsGoOn([[DOT, DOT]], [], after);
  }

  lemma {:induction false} PlainGoes(before: seq<Text>, plain: Text)
    requires Plain(plain)
    ensures Segments(before + [plain, [DOT, DOT]]) == Segments(before)
  {
    assert (before + [plain])[..|before|] == before;
    assert (before + [plain, [DOT, DOT]])[..|before| + 1] == before + [plain];
  }

  predicate EndsIn(path: Text, suffix: Text) {
    |path| >= |suffix| && forall i :: 0 <= i < |suffix| ==> path[|path| - |suffix| + i] == suffix[i]
  }

  function Rebuilt(segments: seq<Text>, trailing: bool): Text {
    var path := [SLASH] + Join(segments, SLASH);
    if trailing && !EndsIn(path, [SLASH]) then path + [SLASH] else path
  }

  function Trailing(path: Text): bool {
    EndsIn(path, [SLASH]) || EndsIn(path, [SLASH, DOT]) || EndsIn(path, [SLASH, DOT, DOT])
  }

  function Normalized(path: Text): Text {
    Rebuilt(Segments(Split(path, SLASH)), Trailing(path))
  }

  function CanonicalPathOf(path: Text, normalize: bool): Text {
    var path := if path == [] then [SLASH] else path;
    Encode(if normalize then Normalized(path) else path, true)
  }

  /** Segments go on a stack; `..` takes one off. */
  method CanonicalPath(path: Text, normalize: bool) returns (r: Text)
    ensures r == CanonicalPathOf(path, normalize)
  {
    var path := if path == [] then [SLASH] else path;
    if !normalize {
      r := UriEncode(path, true);
      return;
    }
    var parts, segments := Split(path, SLASH), [];
    for i := 0 to |parts|
      invariant segments == Segments(parts[..i])
    {
      assert parts[..i + 1][..i] == parts[..i];
      var part := parts[i];
      if part == [] || part == [DOT] {
      } else if part == [DOT, DOT] {
        if segments != [] { segments := segments[..|segments| - 1]; }
      } else {
        segments := segments + [part];
      }
    }
    assert parts[..|parts|] == parts;
    var normalized := [SLASH] + Join(segments, SLASH);
    if Trailing(path) && !EndsIn(normalized, [SLASH]) { normalized := normalized + [SLASH]; }
    r := UriEncode(normalized, true);
  }

  lemma {:induction false} JoinMore(parts: seq<Text>, last: Text, sep: Byte)
    requires parts != []
    ensures Join(parts + [last], sep) == Join(parts, sep) + [sep] + last
  {
    if |parts| == 1 {
      assert (parts + [last])[1..] == [last];
    } else {
      assert (parts + [last])[1..] == parts[1..] + [last];
      JoinMore(parts[1..], last, sep);
      Assoc(parts[0] + [sep], Join(parts[1..], sep) + [sep], last);
      Assoc(parts[0] + [sep], Join(parts[1..], sep), [sep]);
    }
  }

  lemma {:induction false} PlainSegments(segments: seq<Text>)
    requires forall i :: 0 <= i < |segments| ==> Plain(segments[i])
    ensures Segments(segments) == segments
  {
    if segments != [] {
      PlainSegments(segments[..|segments| - 1]);
      assert segments == segments[..|segments| - 1] + [segments[|segments| - 1]];
    }
  }

  /** A path that ends in a plain segment is not a directory's. */
  lemma PlainEnd(before: Text, last: Text)
    requires Plain(last) && SLASH !in last
    ensures !Trailing(before + [SLASH] + last)
  {
    var path, m := before + [SLASH] + last, |last|;
    LastCharacters(before + [SLASH], last);
    assert path[|before|] == SLASH;
    TrailingIs(path);
  }

  lemma LastCharacters(a: Text, b: Text)
    requires b != []
    ensures (a + b)[|a + b| - 1] == b[|b| - 1] && b[|b| - 1] in b
    ensures |b| >= 2 ==> (a + b)[|a + b| - 2] == b[|b| - 2] && b[|b| - 2] in b
    ensures |b| >= 3 ==> (a + b)[|a + b| - 3] == b[|b| - 3] && b[|b| - 3] in b
  {
  }

  /** The last characters, one by one. */
  lemma TrailingIs(path: Text)
    ensures var n := |path|;
      Trailing(path) <==>
        || (n >= 1 && path[n - 1] == SLASH)
        || (n >= 2 && path[n - 2] == SLASH && path[n - 1] == DOT)
        || (n >= 3 && path[n - 3] == SLASH && path[n - 2] == DOT && path[n - 1] == DOT)
  {
    var n := |path|;
    assert EndsIn(path, [SLASH]) ==> path[n - 1] == [SLASH][0];
    assert EndsIn(path, [SLASH, DOT]) ==> path[n - 2] == [SLASH, DOT][0] && path[n - 1] == [SLASH, DOT][1];
    assert EndsIn(path, [SLASH, DOT, DOT]) ==>
        path[n - 3] == [SLASH, DOT, DOT][0] && path[n - 2] == [SLASH, DOT, DOT][1] && path[n - 1] == [SLASH, DOT, DOT][2];
  }

  lemma JoinedLast(segments: seq<Text>) returns (before: Text)
    requires segments != []
    ensures [SLASH] + Join(segments, SLASH) == before + [SLASH] + segments[|segments| - 1]
  {
    var n := |segments| - 1;
    before := if n == 0 then [] else [SLASH] + Join(segments[..n], SLASH);
    if n == 0 {
      Assoc([SLASH], [], []);
    } else {
      assert segments == segments[..n] + [segments[n]];
      JoinMore(segments[..n], segments[n], SLASH);
      var joined := Join(segments[..n], SLASH);
      Assoc([SLASH], joined + [SLASH], segments[n]);
      Assoc([SLASH], joined, [SLASH]);
    }
  }

  lemma {:induction false} JoinedEnd(segments: seq<Text>)
    requires segments != [] && forall i :: 0 <= i < |segments| ==> Plain(segments[i]) && SLASH !in segments[i]
    ensures !Trailing([SLASH] + Join(segments, SLASH))
  {
    var before := JoinedLast(segments);
    PlainEnd(before, segments[|segments| - 1]);
  }

  /** What normalising leaves, cut at its slashes: the empty part before the
      first, plain segments, and an empty part after a trailing slash. */
  ghost predicate Clean(path: Text, segments: seq<Text>) {
    && (forall i :: 0 <= i < |segments| ==> Plain(segments[i]))
    && (Split(path, SLASH) == [[]] + segments || Split(path, SLASH) == [[]] + segments + [[]])
  }

  lemma RebuiltSplits(segments: seq<Text>, trailing: bool)
    requires segments != [] && forall i :: 0 <= i < |segments| ==> Plain(segments[i]) && SLASH !in segments[i]
    ensures Split(Rebuilt(segments, trailing), SLASH) == [[]] + if trailing then segments + [[]] else segments
  {
    JoinedEnd(segments);
    var path, joined := Rebuilt(segments, trailing), Join(segments, SLASH);
    if trailing {
      JoinMore(segments, [], SLASH);
      SplitJoin(segments + [[]], SLASH);
      assert path == [] + [SLASH] + (joined + [SLASH] + []);
      SplitPart([], SLASH, joined + [SLASH] + []);
    } else {
      SplitJoin(segments, SLASH);
      assert path == [] + [SLASH] + joined;
      SplitPart([], SLASH, joined);
    }
  }

  lemma RebuiltIsClean(segments: seq<Text>, trailing: bool)
    requires forall i :: 0 <= i < |segments| ==> Plain(segments[i]) && SLASH !in segments[i]
    ensures Clean(Rebuilt(segments, trailing), segments)
    ensures Trailing(Rebuilt(segments, trailing)) <==> trailing || segments == []
    ensures Segments(Split(Rebuilt(segments, trailing), SLASH)) == segments
  {
    var path := Rebuilt(segments, trailing);
    RebuiltSegments(segments);
    if segments == [] {
      assert path == [] + [SLASH] + [];
      SplitPart([], SLASH, []);
      assert Split(path, SLASH) == [[]] + segments + [[]];
    } else {
      RebuiltSplits(segments, trailing);
      Assoc([[]], segments, [[]]);
      JoinedEnd(segments);
    }
  }

  lemma {:induction false} RebuiltSegments(segments: seq<Text>)
    requires forall i :: 0 <= i < |segments| ==> Plain(segments[i])
    ensures Segments([[]] + segments) == segments && Segments([[]] + segments + [[]]) == segments
  {
    SegmentsAfterEmpty(segments);
    PlainSegments(segments);
    assert ([[]] + segments + [[]])[..|segments| + 1] == [[]] + segments;
  }

  lemma {:induction false} SegmentsAfterEmpty(parts: seq<Text>)
    ensures Segments([[]] + parts) == Segments(parts)
  {
    var all: seq<Text> := [[]] + parts;
    if parts == [] {
      assert all[..0] == [];
    } else {
      assert all[..|all| - 1] == [[]] + parts[..|parts| - 1];
      SegmentsAfterEmpty(parts[..|parts| - 1]);
    }
  }

  /** A normalised path has no empty, `.` or `..` segment, and normalising it again
      changes nothing. */
  lemma {:induction false} NormalizedTwice(path: Text)
    ensures Clean(Normalized(path), Segments(Split(path, SLASH)))
    ensures Normalized(Normalized(path)) == Normalized(path)
  {
    var segments := Segments(Split(path, SLASH));
    PartsLack(path, SLASH);
    RebuiltIsClean(segments, Trailing(path));
  }

  // -------------------------------------------------------------------------
  // The query
  // -------------------------------------------------------------------------

  datatype Pair = Pair(key: Text, value: Text)

  /** A parameter at its first `=`, if it has one. */
  function CutOnce(text: Text): Pair {
    if text == [] then Pair([], [])
    else if text[0] == EQUALS then Pair([], text[1..])
    else var rest := CutOnce(text[1..]); Pair([text[0]] + rest.key, rest.value)
  }

  function NotEmpty(parts: seq<Text>): seq<Text> {
    if parts == [] then []
    else
      var n := |parts| - 1;
      NotEmpty(parts[..n]) + if parts[n] == [] then [] else [parts[n]]
  }

  function Map<A, B>(f: A -> B, s: seq<A>): (r: seq<B>)
    ensures |r| == |s| && forall i :: 0 <= i < |s| ==> r[i] == f(s[i])
  {
    seq(|s|, i requires 0 <= i < |s| => f(s[i]))
  }

  function EncodePair(pair: Pair): Pair {
    Pair(Encode(pair.key, false), Encode(pair.value, false))
  }

  function DecodePair(pair: Pair): Pair {
    Pair(Decode(pair.key), Decode(pair.value))
  }

  function Written(pair: Pair): Text {
    pair.key + [EQUALS] + pair.value
  }

  /** The parameters of a query, in order, as they stand. */
  function Pairs(query: Text): seq<Pair> {
    Map(CutOnce, NotEmpty(Split(query, AND)))
  }

  /** What a query means: its parameters, decoded. */
  function Meaning(query: Text): seq<Pair> {
    Map(DecodePair, Pairs(query))
  }

  function CanonicalQuery(query: Text): Text {
    Join(Map(Written, Sort(Map(EncodePair, Meaning(query)))), AND)
  }

  // Byte order, by key and then by value.

  predicate TextLeq(a: Text, b: Text) {
    a == [] || (b != [] && (a[0] < b[0] || (a[0] == b[0] && TextLeq(a[1..], b[1..]))))
  }

  predicate Leq(a: Pair, b: Pair) {
    if a.key == b.key then TextLeq(a.value, b.value) else TextLeq(a.key, b.key)
  }

  function Insert(pair: Pair, s: seq<Pair>): (r: seq<Pair>)
    ensures multiset(r) == multiset([pair]) + multiset(s)
  {
    if s == [] || Leq(pair, s[0]) then [pair] + s
    else
      assert s == [s[0]] + s[1..];
      [s[0]] + Insert(pair, s[1..])
  }

  function Sort(s: seq<Pair>): (r: seq<Pair>)
    ensures multiset(r) == multiset(s)
  {
    if s == [] then []
    else
      assert s == [s[0]] + s[1..];
      Insert(s[0], Sort(s[1..]))
  }

  ghost predicate Sorted(s: seq<Pair>) {
    forall i, j :: 0 <= i < j < |s| ==> Leq(s[i], s[j])
  }

  lemma {:induction false} TextLeqTotal(a: Text, b: Text, c: Text)
    ensures TextLeq(a, b) || TextLeq(b, a)
    ensures TextLeq(a, b) && TextLeq(b, a) ==> a == b
    ensures TextLeq(a, b) && TextLeq(b, c) ==> TextLeq(a, c)
    decreases |a| + |b| + |c|
  {
    if a != [] && b != [] {
      TextLeqTotal(a[1..], b[1..], if c == [] then [] else c[1..]);
      assert a == [a[0]] + a[1..] && b == [b[0]] + b[1..];
    }
  }

  lemma LeqTotal(a: Pair, b: Pair, c: Pair)
    ensures Leq(a, b) || Leq(b, a)
    ensures Leq(a, b) && Leq(b, a) ==> a == b
    ensures Leq(a, b) && Leq(b, c) ==> Leq(a, c)
  {
    TextLeqTotal(a.key, b.key, c.key);
    TextLeqTotal(b.key, c.key, a.key);
    TextLeqTotal(a.key, c.key, b.key);
    TextLeqTotal(a.value, b.value, c.value);
  }

  lemma {:induction false} InsertSorts(pair: Pair, s: seq<Pair>)
    requires Sorted(s)
    ensures Sorted(Insert(pair, s))
    ensures forall x :: x in Insert(pair, s) <==> x == pair || x in s
  {
    if s != [] {
      var head, rest := s[0], s[1..];
      assert s == [head] + rest;
      LeqTotal(pair, head, head);
      if Leq(pair, head) {
        forall j | 0 <= j < |s| ensures Leq(pair, s[j]) { LeqTotal(pair, head, s[j]); }
      } else {
        InsertSorts(pair, rest);
        forall j | 0 <= j < |Insert(pair, rest)| ensures Leq(head, Insert(pair, rest)[j]) {
          assert Insert(pair, rest)[j] in Insert(pair, rest);
        }
      }
    }
  }

  lemma {:induction false} SortSorts(s: seq<Pair>)
    ensures Sorted(Sort(s))
  {
    if s != [] {
      SortSorts(s[1..]);
      InsertSorts(s[0], Sort(s[1..]));
    }
  }

  lemma SameFirst(a: seq<Pair>, b: seq<Pair>)
    requires a != [] && b != [] && Sorted(a) && Sorted(b) && multiset(a) == multiset(b)
    ensures a[0] == b[0]
  {
    assert a[0] in multiset(b) && b[0] in multiset(a);
    var i :| 0 <= i < |b| && b[i] == a[0];
    var j :| 0 <= j < |a| && a[j] == b[0];
    assert i > 0 ==> Leq(b[0], a[0]);
    assert j > 0 ==> Leq(a[0], b[0]);
    LeqTotal(a[0], b[0], a[0]);
  }

  lemma DropFirst(a: seq<Pair>)
    requires a != []
    ensures multiset(a[1..]) == multiset(a) - multiset{a[0]}
  {
    assert a == [a[0]] + a[1..];
  }

  /** Only one order is sorted. */
  lemma {:induction false} OneSorted(a: seq<Pair>, b: seq<Pair>)
    requires Sorted(a) && Sorted(b) && multiset(a) == multiset(b)
    ensures a == b
  {
    assert |multiset(a)| == |a| && |multiset(b)| == |b|;
    if a != [] {
      SameFirst(a, b);
      DropFirst(a);
      DropFirst(b);
      OneSorted(a[1..], b[1..]);
      SameParts(a, b);
    }
  }

  lemma SameParts(a: seq<Pair>, b: seq<Pair>)
    requires a != [] && b != [] && a[0] == b[0] && a[1..] == b[1..]
    ensures a == b
  {
    assert a == [a[0]] + a[1..] && b == [b[0]] + b[1..];
  }

  function Without<A>(s: seq<A>, k: nat): seq<A>
    requires k < |s|
  {
    s[..k] + s[k + 1..]
  }

  lemma Removed<A>(s: seq<A>, k: nat)
    requires k < |s|
    ensures multiset(s) == multiset(Without(s, k)) + multiset{s[k]}
    ensures multiset(Without(s, k)) == multiset(s) - multiset{s[k]}
  {
    assert s == s[..k] + [s[k]] + s[k + 1..];
  }

  lemma MapRemoved<A, B>(f: A -> B, s: seq<A>, k: nat)
    requires k < |s|
    ensures multiset(Map(f, s)) == multiset(Map(f, Without(s, k))) + multiset{f(s[k])}
  {
    Removed(Map(f, s), k);
    assert Without(Map(f, s), k) == Map(f, Without(s, k));
  }

  lemma {:induction false} MapPermutes<A, B>(f: A -> B, a: seq<A>, b: seq<A>)
    requires multiset(a) == multiset(b)
    ensures multiset(Map(f, a)) == multiset(Map(f, b))
  {
    assert |multiset(a)| == |a| && |multiset(b)| == |b|;
    if a == [] {
      assert a == b;
    } else {
      assert a[0] in multiset(b);
      var k :| 0 <= k < |b| && b[k] == a[0];
      Removed(a, 0);
      Removed(b, k);
      MapPermutes(f, Without(a, 0), Without(b, k));
      MapRemoved(f, a, 0);
      MapRemoved(f, b, k);
    }
  }

  lemma {:induction false} CutWritten(key: Text, value: Text)
    requires EQUALS !in key
    ensures CutOnce(key + [EQUALS] + value) == Pair(key, value)
  {
    var text := key + [EQUALS] + value;
    if key == [] {
      assert text[1..] == value;
    } else {
      assert text[1..] == key[1..] + [EQUALS] + value;
      CutWritten(key[1..], value);
    }
  }

  lemma {:induction false} NoneEmpty(parts: seq<Text>)
    requires forall i :: 0 <= i < |parts| ==> parts[i] != []
    ensures NotEmpty(parts) == parts
  {
    if parts != [] {
      NoneEmpty(parts[..|parts| - 1]);
      assert parts == parts[..|parts| - 1] + [parts[|parts| - 1]];
    }
  }

  lemma {:induction false} SplitJoined(a: Text, b: Text, sep: Byte)
    ensures Split(a + [sep] + b, sep) == Split(a, sep) + Split(b, sep)
  {
    var text := a + [sep] + b;
    if a == [] {
      assert text[1..] == b;
    } else {
      assert text[1..] == a[1..] + [sep] + b;
      SplitJoined(a[1..], b, sep);
    }
  }

  lemma {:induction false} NotEmptyJoins(a: seq<Text>, b: seq<Text>)
    ensures NotEmpty(a + b) == NotEmpty(a) + NotEmpty(b)
  {
    if b == [] {
      assert a + b == a;
    } else {
      var n := |b| - 1;
      assert (a + b)[..|a| + n] == a + b[..n] && (a + b)[|a| + n] == b[n];
      NotEmptyJoins(a, b[..n]);
    }
  }

  lemma {:induction false} MapJoins<A, B>(f: A -> B, a: seq<A>, b: seq<A>)
    ensures Map(f, a + b) == Map(f, a) + Map(f, b)
  {
  }

  /** What is on either side of an `&` means what it means alone. */
  lemma {:induction false} MeaningJoins(a: Text, b: Text)
    ensures Meaning(a + [AND] + b) == Meaning(a) + Meaning(b)
  {
    SplitJoined(a, b, AND);
    NotEmptyJoins(Split(a, AND), Split(b, AND));
    MapJoins(CutOnce, NotEmpty(Split(a, AND)), NotEmpty(Split(b, AND)));
    MapJoins(DecodePair, Pairs(a), Pairs(b));
  }

  lemma {:induction false} CutNothing(text: Text)
    requires EQUALS !in text
    ensures CutOnce(text) == Pair(text, [])
  {
    if text != [] {
      assert text == [text[0]] + text[1..];
      CutNothing(text[1..]);
    }
  }

  /** Between two of them, a text is one parameter, cut at its first `=` and decoded;
      without one its value is empty, and an empty text is none. */
  lemma {:induction false} MeaningOfOne(key: Text, value: Text)
    requires EQUALS !in key && AND !in key && AND !in value
    ensures Meaning(key + [EQUALS] + value) == [Pair(Decode(key), Decode(value))]
    ensures Meaning(key) == if key == [] then [] else [Pair(Decode(key), [])]
  {
    CutWritten(key, value);
    CutNothing(key);
    OnePart(key + [EQUALS] + value);
    OnePart(key);
  }

  lemma {:induction false} OnePart(text: Text)
    requires AND !in text
    ensures Meaning(text) == if text == [] then [] else [DecodePair(CutOnce(text))]
  {
    SplitPart(text, AND, []);
    assert [text][..0] == [] && NotEmpty([text]) == if text == [] then [] else [text];
  }

  lemma {:induction false} PartsComeBack(parts: seq<Text>)
    requires forall i :: 0 <= i < |parts| ==> parts[i] != [] && AND !in parts[i]
    ensures NotEmpty(Split(Join(parts, AND), AND)) == parts
  {
    if parts == [] {
      assert Split([], AND)[..0] == [];
    } else {
      SplitJoin(parts, AND);
      NoneEmpty(parts);
    }
  }

  /** Encoded parameters come back from the query they are written in. */
  lemma WrittenPairs(pairs: seq<Pair>)
    requires forall i :: 0 <= i < |pairs| ==> EQUALS !in pairs[i].key && AND !in pairs[i].key && AND !in pairs[i].value
    ensures Pairs(Join(Map(Written, pairs), AND)) == pairs
  {
    var parts := Map(Written, pairs);
    PartsComeBack(parts);
    forall i | 0 <= i < |pairs| ensures CutOnce(parts[i]) == pairs[i] {
      CutWritten(pairs[i].key, pairs[i].value);
    }
    assert Map(CutOnce, parts) == pairs;
  }

  /** The canonical query's parameters are the sorted, encoded ones. */
  lemma CanonicalPairs(query: Text)
    ensures Pairs(CanonicalQuery(query)) == Sort(Map(EncodePair, Meaning(query)))
  {
    var encoded := Map(EncodePair, Meaning(query));
    var sorted := Sort(encoded);
    forall i | 0 <= i < |sorted| ensures EQUALS !in sorted[i].key && AND !in sorted[i].key && AND !in sorted[i].value {
      assert sorted[i] in multiset(sorted);
      var k :| 0 <= k < |encoded| && encoded[k] == sorted[i];
      EncodedHasNo(Meaning(query)[k].key, EQUALS);
      EncodedHasNo(Meaning(query)[k].key, AND);
      EncodedHasNo(Meaning(query)[k].value, AND);
    }
    WrittenPairs(sorted);
  }

  lemma DecodeEncodedPairs(pairs: seq<Pair>)
    ensures Map(DecodePair, Map(EncodePair, pairs)) == pairs
  {
    forall i | 0 <= i < |pairs| ensures DecodePair(EncodePair(pairs[i])) == pairs[i] {
      DecodeInvertsEncode(pairs[i].key, false);
      DecodeInvertsEncode(pairs[i].value, false);
    }
  }

  /** A canonical query means what the query did. */
  lemma CanonicalMeansTheSame(query: Text)
    ensures multiset(Meaning(CanonicalQuery(query))) == multiset(Meaning(query))
  {
    var encoded := Map(EncodePair, Meaning(query));
    CanonicalPairs(query);
    MapPermutes(DecodePair, Sort(encoded), encoded);
    DecodeEncodedPairs(Meaning(query));
  }

  /** In the order of their bytes: one begins the other, or has the smaller byte
      where they first differ. */
  ghost predicate NotLater(a: Text, b: Text) {
    a <= b || exists k :: 0 <= k < |a| && k < |b| && a[..k] == b[..k] && a[k] < b[k]
  }

  lemma {:induction false} LeqNotLater(a: Text, b: Text)
    requires TextLeq(a, b)
    ensures NotLater(a, b)
  {
    if a != [] && a[0] < b[0] {
      assert a[..0] == b[..0];
    } else if a != [] {
      LeqNotLater(a[1..], b[1..]);
      if !(a[1..] <= b[1..]) {
        var k :| 0 <= k < |a| - 1 && k < |b| - 1 && a[1..][..k] == b[1..][..k] && a[1..][k] < b[1..][k];
        assert a[..k + 1] == [a[0]] + a[1..][..k] && b[..k + 1] == [b[0]] + b[1..][..k];
        assert a[k + 1] < b[k + 1];
      } else {
        assert a == [a[0]] + a[1..] && b[..|a|] == [b[0]] + b[1..][..|a| - 1];
      }
    }
  }

  /** A canonical query's parameters are sorted, by key and then by value. */
  lemma CanonicalSorted(query: Text, i: nat, j: nat)
    requires i < j < |Pairs(CanonicalQuery(query))|
    ensures var a, b := Pairs(CanonicalQuery(query))[i], Pairs(CanonicalQuery(query))[j];
      NotLater(a.key, b.key) && (a.key == b.key ==> NotLater(a.value, b.value))
  {
    CanonicalPairs(query);
    SortSorts(Map(EncodePair, Meaning(query)));
    var a, b := Pairs(CanonicalQuery(query))[i], Pairs(CanonicalQuery(query))[j];
    if a.key == b.key { LeqNotLater(a.value, b.value); } else { LeqNotLater(a.key, b.key); }
  }

  /** Two queries have the same canonical form exactly when they have the same
      parameters, in any order and however they are encoded. */
  lemma CanonicalIffSame(p: Text, q: Text)
    ensures CanonicalQuery(p) == CanonicalQuery(q) <==> multiset(Meaning(p)) == multiset(Meaning(q))
  {
    if CanonicalQuery(p) == CanonicalQuery(q) {
      CanonicalMeansTheSame(p);
      CanonicalMeansTheSame(q);
    }
    if multiset(Meaning(p)) == multiset(Meaning(q)) {
      var a, b := Map(EncodePair, Meaning(p)), Map(EncodePair, Meaning(q));
      MapPermutes(EncodePair, Meaning(p), Meaning(q));
      SortSorts(a);
      SortSorts(b);
      OneSorted(Sort(a), Sort(b));
    }
  }

  lemma CanonicalTwice(query: Text)
    ensures CanonicalQuery(CanonicalQuery(query)) == CanonicalQuery(query)
  {
    CanonicalMeansTheSame(query);
    CanonicalIffSame(CanonicalQuery(query), query);
  }
}
