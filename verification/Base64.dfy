/** Standard base64 with padding, as in section 4 of RFC 4648. */
module Base64 {
  import opened Common

  type Byte = b: int | 0 <= b < 256

  type Bytes = seq<Byte>

  /** Six bits. */
  type Sextet = v: int | 0 <= v < 64

  function Letter(v: Sextet): char {
    if v < 26 then ('A' as int + v) as char
    else if v < 52 then ('a' as int + v - 26) as char
    else if v < 62 then ('0' as int + v - 52) as char
    else if v == 62 then '+' else '/'
  }

  function ValueOf(c: char): Option<Sextet> {
    if 'A' <= c <= 'Z' then Some(c as int - 'A' as int)
    else if 'a' <= c <= 'z' then Some(c as int - 'a' as int + 26)
    else if '0' <= c <= '9' then Some(c as int - '0' as int + 52)
    else if c == '+' then Some(62)
    else if c == '/' then Some(63)
    else None
  }

  /** The alphabet of the RFC's table 1, in its order. */
  lemma Alphabet(v: Sextet)
    ensures Letter(v) == ("ABCDEFGHIJKLMNOPQRSTUVWXYZ" + "abcdefghijklmnopqrstuvwxyz" + "0123456789+/")[v]
  {
    if v < 26 {
      assert Letter(v) == "ABCDEFGHIJKLMNOPQRSTUVWXYZ"[v];
    } else if v < 52 {
      assert Letter(v) == "abcdefghijklmnopqrstuvwxyz"[v - 26];
    } else {
      assert Letter(v) == "0123456789+/"[v - 52];
    }
  }

  lemma LetterTells(v: Sextet)
    ensures ValueOf(Letter(v)) == Some(v) && Letter(v) != '=' && !White(Letter(v))
  {
  }

  lemma ValueTells(c: char)
    requires ValueOf(c).Some?
    ensures Letter(ValueOf(c).value) == c && c != '=' && !White(c)
  {
  }

  // -------------------------------------------------------------------------
  // Encoding
  // -------------------------------------------------------------------------

  /** Up to three bytes, as one number of three. */
  function NumberOf(chunk: Bytes): nat
    requires 1 <= |chunk| <= 3
  {
    var b1: nat, b2: nat := if |chunk| > 1 then chunk[1] else 0, if |chunk| > 2 then chunk[2] else 0;
    chunk[0] * 0x1_0000 + b1 * 0x100 + b2
  }

  /** The low six bits of `n >> 6 * k`. */
  function SextetOf(n: nat, k: nat): Sextet {
    if k == 0 then n % 64 else SextetOf(n / 64, k - 1)
  }

  /** The low eight bits of `n >> 8 * k`. */
  function OctetOf(n: nat, k: nat): Byte {
    if k == 0 then n % 256 else OctetOf(n / 256, k - 1)
  }

  /** The text of up to three bytes. */
  function EncodeChunk(chunk: Bytes): (text: string)
    requires 1 <= |chunk| <= 3
    ensures |text| == 4
  {
    var n := NumberOf(chunk);
    [Letter(SextetOf(n, 3)), Letter(SextetOf(n, 2)),
     if |chunk| > 1 then Letter(SextetOf(n, 1)) else '=', if |chunk| > 2 then Letter(SextetOf(n, 0)) else '=']
  }

  function Encode(bytes: Bytes): string {
    if bytes == [] then ""
    else if |bytes| <= 3 then EncodeChunk(bytes)
    else EncodeChunk(bytes[..3]) + Encode(bytes[3..])
  }

  /** Three of the RFC's test vectors, of section 10: f, fo and foo. */
  lemma Vectors()
    ensures Encode([0x66]) == "Zg==" && Encode([0x66, 0x6f]) == "Zm8=" && Encode([0x66, 0x6f, 0x6f]) == "Zm9v"
  {
    FourLetters([0x66], 25, 32, 0, 0);
    FourLetters([0x66, 0x6f], 25, 38, 60, 0);
    FourLetters([0x66, 0x6f, 0x6f], 25, 38, 61, 47);
  }

  /** Up to three bytes whose number has these sextets. */
  lemma {:induction false} FourLetters(bytes: Bytes, a: Sextet, b: Sextet, c: Sextet, d: Sextet)
    requires 1 <= |bytes| <= 3 && NumberOf(bytes) == Combined(a, b, c, d)
    ensures Encode(bytes) ==
      [Letter(a), Letter(b)] + [if |bytes| > 1 then Letter(c) else '=', if |bytes| > 2 then Letter(d) else '=']
  {
    CombinedTells(a, b, c, d);
  }

  /** Bytes as text, three at a time. */
  method Base64Bytes(bytes: Bytes) returns (out: string)
    ensures out == Encode(bytes)
  {
    out := "";
    var i := 0;
    while i < |bytes|
      invariant i <= |bytes| && Encode(bytes) == out + Encode(bytes[i..])
    {
      ghost var rest := bytes[i..];
      var chunk := if i + 3 <= |bytes| then bytes[i..i + 3] else bytes[i..];
      assert rest == chunk + bytes[i + |chunk|..] && (|rest| > 3 ==> chunk == rest[..3] && bytes[i + 3..] == rest[3..]);
      assert |rest| <= 3 ==> chunk == rest && bytes[i + |chunk|..] == [];
      Assoc(out, EncodeChunk(chunk), Encode(bytes[i + |chunk|..]));
      Assoc(out + EncodeChunk(chunk), [], []);
      out, i := out + EncodeChunk(chunk), i + |chunk|;
    }
  }

  // -------------------------------------------------------------------------
  // Decoding
  // -------------------------------------------------------------------------

  /** How many `=` a chunk ends with. */
  function Padding(chunk: string): nat {
    if chunk == "" || chunk[|chunk| - 1] != '=' then 0 else 1 + Padding(chunk[..|chunk| - 1])
  }

  function Power(k: nat): nat {
    if k == 0 then 1 else 64 * Power(k - 1)
  }

  /** The letters as one number, six bits each. */
  function Number(letters: string): (n: Option<nat>)
    ensures n.Some? ==> n.value < Power(|letters|)
  {
    if letters == "" then Some(0)
    else
      var before, v := Number(letters[..|letters| - 1]), ValueOf(letters[|letters| - 1]);
      if before.None? || v.None? then None else Some(before.value * 64 + v.value)
  }

  /** The first bytes of a number of three. */
  function Octets(n: nat, count: nat): Bytes {
    if count == 1 then [OctetOf(n, 2)]
    else if count == 2 then [OctetOf(n, 2), OctetOf(n, 1)]
    else [OctetOf(n, 2), OctetOf(n, 1), OctetOf(n, 0)]
  }

  function DecodeChunk(chunk: string, last: bool): Option<Bytes> {
    var pad := Padding(chunk);
    if |chunk| != 4 || pad > 2 || (pad > 0 && !last) then None
    else
      var number := Number(chunk[..4 - pad]);
      if number.None? then None
      else Some(Octets(number.value * (if pad == 2 then 0x1000 else if pad == 1 then 0x40 else 1), 3 - pad))
  }

  /** What a text comes to, chunk by chunk, by what `decode` makes of each. */
  function DecodeAll(decode: (string, bool) -> Option<Bytes>, text: string): Option<Bytes> {
    if text == "" then Some([])
    else if |text| < 4 then None
    else After(decode(text[..4], |text| == 4), DecodeAll(decode, text[4..]))
  }

  function After(out: Option<Bytes>, rest: Option<Bytes>): Option<Bytes> {
    if out.None? || rest.None? then None else Some(out.value + rest.value)
  }

  function Decode(text: string): Option<Bytes> {
    var trimmed := Trim(text);
    if |trimmed| % 4 != 0 then None else DecodeAll(DecodeChunk, trimmed)
  }

  method CountPadding(chunk: string) returns (pad: nat)
    ensures pad == Padding(chunk)
  {
    pad := 0;
    assert chunk[..|chunk|] == chunk;
    while pad < |chunk| && chunk[|chunk| - 1 - pad] == '='
      invariant pad <= |chunk| && Padding(chunk) == pad + Padding(chunk[..|chunk| - pad])
    {
      assert chunk[..|chunk| - pad][..|chunk| - pad - 1] == chunk[..|chunk| - (pad + 1)];
      pad := pad + 1;
    }
  }

  method ReadNumber(letters: string) returns (n: Option<nat>)
    ensures n == Number(letters)
  {
    var value: nat := 0;
    for i := 0 to |letters|
      invariant Number(letters[..i]) == Some(value)
    {
      assert letters[..i + 1][..i] == letters[..i];
      var v := ValueOf(letters[i]);
      if v.None? {
        NoNumber(letters, i);
        return None;
      }
      value := value * 64 + v.value;
    }
    assert letters[..|letters|] == letters;
    n := Some(value);
  }

  method Decode4(chunk: string, last: bool) returns (out: Option<Bytes>)
    requires |chunk| == 4
    ensures out == DecodeChunk(chunk, last)
  {
    var pad := CountPadding(chunk);
    if pad > 2 || (pad > 0 && !last) { return None; }
    var number := ReadNumber(chunk[..4 - pad]);
    if number.None? { return None; }
    var n: nat := number.value * (if pad == 2 then 0x1000 else if pad == 1 then 0x40 else 1);
    var bytes: Bytes := [OctetOf(n, 2)];
    if pad < 2 { bytes := bytes + [OctetOf(n, 1)]; }
    if pad < 1 { bytes := bytes + [OctetOf(n, 0)]; }
    assert bytes == Octets(n, 3 - pad);
    out := Some(bytes);
  }

  lemma {:induction false} NextChunk(decode: (string, bool) -> Option<Bytes>, chars: string, at: nat, out: Bytes)
    requires at + 4 <= |chars| && DecodeAll(decode, chars) == After(Some(out), DecodeAll(decode, chars[at..]))
    ensures var bytes := decode(chars[at..at + 4], at + 4 == |chars|);
      DecodeAll(decode, chars) == if bytes.None? then None else After(Some(out + bytes.value), DecodeAll(decode, chars[at + 4..]))
  {
    var rest, bytes := chars[at..], decode(chars[at..at + 4], at + 4 == |chars|);
    assert rest[..4] == chars[at..at + 4] && rest[4..] == chars[at + 4..];
    if bytes.Some? { AfterMore(out, bytes.value, DecodeAll(decode, chars[at + 4..])); }
  }

  /** Every chunk of the text, with what they come to so far. */
  method DecodeChunks(chars: string, chunks: nat) returns (r: Option<Bytes>)
    requires |chars| == 4 * chunks
    ensures r == DecodeAll(DecodeChunk, chars)
  {
    var out: Bytes := [];
    ghost var decode: (string, bool) -> Option<Bytes> := DecodeChunk;
    assert chars[0..] == chars;
    AfterMore([], [], DecodeAll(decode, chars));
    for i := 0 to chunks
      invariant DecodeAll(decode, chars) == After(Some(out), DecodeAll(decode, chars[4 * i..]))
    {
      NextChunk(decode, chars, 4 * i, out);
      var bytes := Decode4(chars[4 * i..4 * i + 4], i == chunks - 1);
      if bytes.None? { return None; }
      out := out + bytes.value;
    }
    AfterMore(out, [], Some([]));
    assert chars[4 * chunks..] == "";
    r := Some(out);
  }

  /** Text back into bytes, four characters at a time; nothing for what is not
      base64, padding included. */
  method Base64Decode(text: string) returns (r: Option<Bytes>)
    ensures r == Decode(text)
  {
    var chars := Trim(text);
    if |chars| % 4 != 0 { return None; }
    r := DecodeChunks(chars, |chars| / 4);
  }

  lemma AfterMore(out: Bytes, bytes: Bytes, rest: Option<Bytes>)
    ensures After(Some(out), After(Some(bytes), rest)) == After(Some(out + bytes), rest)
    ensures After(Some([]), rest) == rest && out + [] == out
  {
    if rest.Some? {
      Assoc(out, bytes, rest.value);
      assert [] + rest.value == rest.value;
    }
  }

  lemma {:induction false} NoNumber(letters: string, i: nat)
    requires i < |letters| && ValueOf(letters[i]).None?
    ensures Number(letters).None?
  {
    if i < |letters| - 1 { NoNumber(letters[..|letters| - 1], i); }
  }

  // -------------------------------------------------------------------------
  // Round trips
  // -------------------------------------------------------------------------

  function Combined(a: nat, b: nat, c: nat, d: nat): nat {
    ((a * 64 + b) * 64 + c) * 64 + d
  }

  lemma Shifted(n: nat, d: nat, bound: nat)
    requires n < d * bound
    ensures n == d * (n / d) + n % d && n / d < bound
  {
    Multiplied(bound, n / d, d);
  }

  lemma {:induction false} SextetsAre(n: nat)
    ensures SextetOf(n, 0) == n % 64 && SextetOf(n, 1) == n / 64 % 64
    ensures SextetOf(n, 2) == n / 64 / 64 % 64 && SextetOf(n, 3) == n / 64 / 64 / 64 % 64
  {
    assert SextetOf(n, 1) == SextetOf(n / 64, 0);
    assert SextetOf(n, 2) == SextetOf(n / 64, 1) == SextetOf(n / 64 / 64, 0);
    assert SextetOf(n, 3) == SextetOf(n / 64, 2) == SextetOf(n / 64 / 64, 1) == SextetOf(n / 64 / 64 / 64, 0);
  }

  lemma Combines(n: nat, m: nat, k: nat, a: nat, b: nat, c: nat, d: nat)
    requires n == 64 * m + d && m == 64 * k + c && k == 64 * a + b
    ensures Combined(a, b, c, d) == n
  {
  }

  /** Three bytes as four sextets, and as one number. */
  lemma {:induction false} SextetsTell(n: nat)
    requires n < 0x100_0000
    ensures Combined(SextetOf(n, 3), SextetOf(n, 2), SextetOf(n, 1), SextetOf(n, 0)) == n
  {
    var m, k, j := n / 64, n / 64 / 64, n / 64 / 64 / 64;
    SextetsAre(n);
    Shifted(n, 64, 0x4_0000);
    Shifted(m, 64, 0x1000);
    Shifted(k, 64, 64);
    Combines(n, m, k, j, k % 64, m % 64, n % 64);
  }

  lemma CombinedTells(a: Sextet, b: Sextet, c: Sextet, d: Sextet)
    ensures var n := Combined(a, b, c, d);
      n < 0x100_0000 && SextetOf(n, 3) == a && SextetOf(n, 2) == b && SextetOf(n, 1) == c && SextetOf(n, 0) == d
  {
    var n := Combined(a, b, c, d);
    var m, k := n / 64, n / 64 / 64;
    assert m == (a * 64 + b) * 64 + c && k == a * 64 + b;
    assert SextetOf(n, 1) == SextetOf(m, 0) && SextetOf(n, 2) == SextetOf(m, 1) && SextetOf(n, 3) == SextetOf(m, 2);
    assert SextetOf(m, 1) == SextetOf(k, 0) && SextetOf(m, 2) == SextetOf(k, 1) && SextetOf(k, 1) == SextetOf(k / 64, 0);
    assert k / 64 == a;
  }

  lemma OctetsTell(a: Byte, b: Byte, c: Byte)
    ensures var n: nat := a * 0x1_0000 + b * 0x100 + c; n < 0x100_0000 && OctetOf(n, 2) == a && OctetOf(n, 1) == b && OctetOf(n, 0) == c
  {
    var n: nat := a * 0x1_0000 + b * 0x100 + c;
    assert n / 256 == a * 256 + b;
    assert OctetOf(n, 1) == OctetOf(n / 256, 0) && OctetOf(n, 2) == OctetOf(n / 256, 1);
  }

  lemma {:induction false} OctetsAre(n: nat)
    requires n < 0x100_0000
    ensures n == OctetOf(n, 2) * 0x1_0000 + OctetOf(n, 1) * 0x100 + OctetOf(n, 0)
    ensures n / 0x100 * 0x100 == OctetOf(n, 2) * 0x1_0000 + OctetOf(n, 1) * 0x100
    ensures n / 0x1_0000 * 0x1_0000 == OctetOf(n, 2) * 0x1_0000
  {
    var m, k := n / 256, n / 256 / 256;
    Shifted(n, 256, 0x1_0000);
    Shifted(m, 256, 256);
    Quotient(n, 0x1_0000, k, m % 256 * 256 + n % 256);
    assert OctetOf(n, 1) == OctetOf(m, 0) && OctetOf(n, 2) == OctetOf(m, 1) && OctetOf(m, 1) == OctetOf(k, 0);
  }

  lemma NumberIs(chunk: string)
    requires |chunk| == 4
    ensures Number(chunk[..2]) ==
      if ValueOf(chunk[0]).Some? && ValueOf(chunk[1]).Some? then Some(ValueOf(chunk[0]).value * 64 + ValueOf(chunk[1]).value) else None
    ensures Number(chunk[..3]) ==
      if Number(chunk[..2]).Some? && ValueOf(chunk[2]).Some? then Some(Number(chunk[..2]).value * 64 + ValueOf(chunk[2]).value) else None
    ensures Number(chunk[..4]) ==
      if Number(chunk[..3]).Some? && ValueOf(chunk[3]).Some? then Some(Number(chunk[..3]).value * 64 + ValueOf(chunk[3]).value) else None
  {
    assert chunk[..1][..0] == "" && chunk[..2][..1] == chunk[..1] && chunk[..3][..2] == chunk[..2] && chunk[..4][..3] == chunk[..3];
    assert Number(chunk[..1]) == if ValueOf(chunk[0]).Some? then Some(ValueOf(chunk[0]).value) else None;
  }

  lemma {:induction false} PaddingIs(chunk: string)
    requires |chunk| == 4
    ensures Padding(chunk) ==
      if chunk[3] != '=' then 0 else if chunk[2] != '=' then 1 else if chunk[1] != '=' then 2 else 2 + Padding(chunk[..2])
    ensures chunk[1] == '=' ==> Padding(chunk[..2]) >= 1
  {
    assert chunk[..3][..2] == chunk[..2];
    assert chunk[..2][1] != '=' ==> Padding(chunk[..2]) == 0;
    assert Padding(chunk[..3]) == if chunk[2] != '=' then 0 else 1 + Padding(chunk[..2]);
  }

  lemma DecodeThree(a: Sextet, b: Sextet, c: Sextet, d: Sextet, last: bool)
    ensures DecodeChunk([Letter(a), Letter(b), Letter(c), Letter(d)], last) == Some(Octets(Combined(a, b, c, d), 3))
  {
    var text := [Letter(a), Letter(b), Letter(c), Letter(d)];
    LetterTells(a);
    LetterTells(b);
    LetterTells(c);
    LetterTells(d);
    PaddingIs(text);
    NumberIs(text);
  }

  lemma DecodeTwo(a: Sextet, b: Sextet, c: Sextet)
    ensures DecodeChunk([Letter(a), Letter(b), Letter(c), '='], true) == Some(Octets(Combined(a, b, c, 0), 2))
  {
    var text := [Letter(a), Letter(b), Letter(c), '='];
    LetterTells(a);
    LetterTells(b);
    LetterTells(c);
    PaddingIs(text);
    NumberIs(text);
  }

  lemma DecodeOne(a: Sextet, b: Sextet)
    ensures DecodeChunk([Letter(a), Letter(b), '=', '='], true) == Some(Octets(Combined(a, b, 0, 0), 1))
  {
    var text := [Letter(a), Letter(b), '=', '='];
    LetterTells(a);
    LetterTells(b);
    PaddingIs(text);
    NumberIs(text);
  }

  lemma RoundTripThree(chunk: Bytes, last: bool)
    requires |chunk| == 3
    ensures DecodeChunk(EncodeChunk(chunk), last) == Some(chunk)
  {
    var n := NumberOf(chunk);
    OctetsTell(chunk[0], chunk[1], chunk[2]);
    SextetsTell(n);
    DecodeThree(SextetOf(n, 3), SextetOf(n, 2), SextetOf(n, 1), SextetOf(n, 0), last);
    assert chunk == Octets(n, 3);
  }

  /** Fewer bytes than three leave the last letters nothing. */
  lemma LowZero(a: Byte, b: Byte)
    ensures SextetOf(a * 0x1_0000 + b * 0x100, 0) == 0
    ensures b == 0 ==> SextetOf(a * 0x1_0000, 1) == 0
  {
    var n: nat := a * 0x1_0000 + b * 0x100;
    assert n == 64 * (a * 0x400 + b * 4);
    assert b == 0 ==> SextetOf(n, 1) == SextetOf(n / 64, 0) && n / 64 == 64 * (a * 0x10);
  }

  lemma RoundTripTwo(chunk: Bytes)
    requires |chunk| == 2
    ensures DecodeChunk(EncodeChunk(chunk), true) == Some(chunk)
  {
    var n := NumberOf(chunk);
    OctetsTell(chunk[0], chunk[1], 0);
    SextetsTell(n);
    LowZero(chunk[0], chunk[1]);
    DecodeTwo(SextetOf(n, 3), SextetOf(n, 2), SextetOf(n, 1));
    assert chunk == Octets(n, 2);
  }

  lemma RoundTripOne(chunk: Bytes)
    requires |chunk| == 1
    ensures DecodeChunk(EncodeChunk(chunk), true) == Some(chunk)
  {
    var n := NumberOf(chunk);
    OctetsTell(chunk[0], 0, 0);
    SextetsTell(n);
    LowZero(chunk[0], 0);
    DecodeOne(SextetOf(n, 3), SextetOf(n, 2));
    assert chunk == Octets(n, 1);
  }

  /** A chunk decodes to what it encodes. */
  lemma ChunkRoundTrip(chunk: Bytes, last: bool)
    requires 1 <= |chunk| <= 3 && (|chunk| < 3 ==> last)
    ensures DecodeChunk(EncodeChunk(chunk), last) == Some(chunk)
  {
    if |chunk| == 3 { RoundTripThree(chunk, last); }
    if |chunk| == 2 { RoundTripTwo(chunk); }
    if |chunk| == 1 { RoundTripOne(chunk); }
  }

  lemma {:induction false} EncodedText(bytes: Bytes)
    ensures bytes != [] ==> |Encode(bytes)| >= 4
    ensures forall c :: c in Encode(bytes) ==> !White(c)
    ensures DecodeAll(DecodeChunk, Encode(bytes)) == Some(bytes)
    decreases |bytes|
  {
    if 0 < |bytes| <= 3 {
      EncodedChunk(bytes, []);
      Assoc(bytes, [], []);
      Assoc(EncodeChunk(bytes), "", "");
    } else if bytes != [] {
      EncodedText(bytes[3..]);
      EncodedChunk(bytes[..3], bytes[3..]);
      assert bytes[..3] + bytes[3..] == bytes;
    }
  }

  lemma {:induction false} EncodedChunk(chunk: Bytes, rest: Bytes)
    requires 1 <= |chunk| <= 3 && (|chunk| < 3 ==> rest == [])
    requires (rest != [] ==> |Encode(rest)| >= 4) && DecodeAll(DecodeChunk, Encode(rest)) == Some(rest)
    ensures forall c :: c in EncodeChunk(chunk) ==> !White(c)
    ensures DecodeAll(DecodeChunk, EncodeChunk(chunk) + Encode(rest)) == Some(chunk + rest)
  {
    NotWhite(chunk);
    ChunkRoundTrip(chunk, rest == []);
    FirstChunk(DecodeChunk, EncodeChunk(chunk), Encode(rest));
  }

  lemma {:induction false} FirstChunk(decode: (string, bool) -> Option<Bytes>, chunk: string, rest: string)
    requires |chunk| == 4
    ensures DecodeAll(decode, chunk + rest) == After(decode(chunk, rest == ""), DecodeAll(decode, rest))
  {
    assert (chunk + rest)[..4] == chunk && (chunk + rest)[4..] == rest;
  }

  /** Only whole chunks decode. */
  lemma {:induction false} WholeChunks(decode: (string, bool) -> Option<Bytes>, text: string) returns (k: nat)
    requires DecodeAll(decode, text).Some?
    ensures |text| == 4 * k
  {
    if text == "" {
      k := 0;
    } else {
      k := WholeChunks(decode, text[4..]);
      k := k + 1;
    }
  }

  lemma NotWhite(chunk: Bytes)
    requires 1 <= |chunk| <= 3
    ensures forall c :: c in EncodeChunk(chunk) ==> !White(c)
  {
  }

  /** Decoding an encoding gives back the bytes, whatever they are. */
  lemma {:induction false} DecodeInvertsEncode(bytes: Bytes)
    ensures Decode(Encode(bytes)) == Some(bytes)
  {
    var text := Encode(bytes);
    EncodedText(bytes);
    var k := WholeChunks(DecodeChunk, text);
    FourTimes(k);
    NotTrimmed(text);
  }

  lemma {:induction false} NotTrimmed(text: string)
    requires forall c :: c in text ==> !White(c)
    ensures Trim(text) == text
  {
    if text != "" { assert text[0] in text && text[|text| - 1] in text; }
  }

  lemma FourTimes(k: nat)
    ensures 4 * k % 4 == 0
  {
  }

  /** The bits of the last letter that stand for no byte are zero. */
  predicate SpareBitsZero(chunk: string)
    requires |chunk| == 4
  {
    match Padding(chunk)
    case 1 => ValueOf(chunk[2]).Some? && ValueOf(chunk[2]).value % 4 == 0
    case 2 => ValueOf(chunk[1]).Some? && ValueOf(chunk[1]).value % 16 == 0
    case _ => true
  }

  lemma BackThree(a: Sextet, b: Sextet, c: Sextet, d: Sextet)
    ensures EncodeChunk(Octets(Combined(a, b, c, d), 3)) == [Letter(a), Letter(b), Letter(c), Letter(d)]
  {
    var n := Combined(a, b, c, d);
    CombinedTells(a, b, c, d);
    OctetsAre(n);
    assert NumberOf(Octets(n, 3)) == n;
  }

  /** What two bytes, and one, keep of four letters. */
  lemma Rounded(a: Sextet, b: Sextet, c: Sextet)
    ensures Combined(a, b, c, 0) / 0x100 * 0x100 == Combined(a, b, c / 4 * 4, 0)
    ensures Combined(a, b, 0, 0) / 0x1_0000 * 0x1_0000 == Combined(a, b / 16 * 16, 0, 0)
  {
    var high, top: nat := 0x400 * a + 0x10 * b + c / 4, 4 * a + b / 16;
    assert c == 4 * (c / 4) + c % 4 && b == 16 * (b / 16) + b % 16;
    Quotient(Combined(a, b, c, 0), 0x100, high, 64 * (c % 4));
    Quotient(Combined(a, b, 0, 0), 0x1_0000, top, 0x1000 * (b % 16));
  }

  lemma BackTwo(a: Sextet, b: Sextet, c: Sextet)
    ensures EncodeChunk(Octets(Combined(a, b, c, 0), 2)) == [Letter(a), Letter(b), Letter(c / 4 * 4), '=']
  {
    CombinedTells(a, b, c, 0);
    CombinedTells(a, b, c / 4 * 4, 0);
    OctetsAre(Combined(a, b, c, 0));
    Rounded(a, b, c);
    assert NumberOf(Octets(Combined(a, b, c, 0), 2)) == Combined(a, b, c / 4 * 4, 0);
  }

  lemma BackOne(a: Sextet, b: Sextet)
    ensures EncodeChunk(Octets(Combined(a, b, 0, 0), 1)) == [Letter(a), Letter(b / 16 * 16), '=', '=']
  {
    CombinedTells(a, b, 0, 0);
    CombinedTells(a, b / 16 * 16, 0, 0);
    OctetsAre(Combined(a, b, 0, 0));
    Rounded(a, b, 0);
    assert NumberOf(Octets(Combined(a, b, 0, 0), 1)) == Combined(a, b / 16 * 16, 0, 0);
  }

  lemma LettersApart(v: Sextet, w: Sextet)
    ensures Letter(v) == Letter(w) <==> v == w
  {
    LetterTells(v);
    LetterTells(w);
  }

  lemma {:induction false} DecodedLetters(chunk: string, last: bool)
    requires |chunk| == 4 && DecodeChunk(chunk, last).Some?
    ensures Padding(chunk) <= 2 && (Padding(chunk) > 0 ==> last)
    ensures ValueOf(chunk[0]).Some? && ValueOf(chunk[1]).Some?
    ensures Padding(chunk) <= 1 ==> ValueOf(chunk[2]).Some?
    ensures Padding(chunk) == 0 ==> ValueOf(chunk[3]).Some?
    ensures Padding(chunk) >= 1 ==> chunk[3] == '='
    ensures Padding(chunk) == 2 ==> chunk[2] == '='
  {
    PaddingIs(chunk);
    NumberIs(chunk);
  }

  /** A chunk comes back from what it decodes to exactly when its spare bits are
      zero. */
  lemma {:induction false} ChunkBack(chunk: string, last: bool)
    requires |chunk| == 4 && DecodeChunk(chunk, last).Some?
    ensures var bytes := DecodeChunk(chunk, last).value;
      && |bytes| == 3 - Padding(chunk) && 1 <= |bytes| <= 3 && (!last ==> |bytes| == 3 && SpareBitsZero(chunk))
      && (EncodeChunk(bytes) == chunk <==> SpareBitsZero(chunk))
  {
    DecodedLetters(chunk, last);
    var a, b := ValueOf(chunk[0]).value, ValueOf(chunk[1]).value;
    ValueTells(chunk[0]);
    ValueTells(chunk[1]);
    match Padding(chunk) {
      case 0 =>
        var c, d := ValueOf(chunk[2]).value, ValueOf(chunk[3]).value;
        ValueTells(chunk[2]);
        ValueTells(chunk[3]);
        assert chunk == [Letter(a), Letter(b), Letter(c), Letter(d)];
        DecodeThree(a, b, c, d, last);
        BackThree(a, b, c, d);
      case 1 =>
        var c := ValueOf(chunk[2]).value;
        ValueTells(chunk[2]);
        assert chunk == [Letter(a), Letter(b), Letter(c), '='];
        DecodeTwo(a, b, c);
        BackTwo(a, b, c);
        LettersApart(c, c / 4 * 4);
        assert [Letter(a), Letter(b), Letter(c / 4 * 4), '='][2] == Letter(c / 4 * 4);
      case _ =>
        assert chunk == [Letter(a), Letter(b), '=', '='];
        DecodeOne(a, b);
        BackOne(a, b);
        LettersApart(b, b / 16 * 16);
        assert [Letter(a), Letter(b / 16 * 16), '=', '='][1] == Letter(b / 16 * 16);
    }
  }

  lemma {:induction false} DecodedText(text: string)
    requires text != "" && DecodeAll(DecodeChunk, text).Some?
    ensures |text| >= 4 && DecodeAll(DecodeChunk, text).value != []
    ensures Encode(DecodeAll(DecodeChunk, text).value) == text <==> SpareBitsZero(text[|text| - 4..])
  {
    var chunk, tail := text[..4], text[4..];
    var bytes := DecodeChunk(chunk, |text| == 4).value;
    ChunkBack(chunk, |text| == 4);
    assert text == chunk + tail;
    if |text| == 4 {
      Assoc(bytes, [], []);
      assert text == chunk && text[|text| - 4..] == text;
    } else {
      var rest := DecodeAll(DecodeChunk, tail).value;
      DecodedText(tail);
      assert tail[|tail| - 4..] == text[|text| - 4..];
      EncodeMore(bytes, rest);
      SameTail(EncodeChunk(bytes), Encode(rest), tail);
    }
  }

  lemma {:induction false} EncodeMore(bytes: Bytes, rest: Bytes)
    requires |bytes| == 3 && rest != []
    ensures Encode(bytes + rest) == EncodeChunk(bytes) + Encode(rest)
  {
    assert (bytes + rest)[..3] == bytes && (bytes + rest)[3..] == rest;
  }

  lemma SameTail(chunk: string, a: string, b: string)
    ensures chunk + a == chunk + b <==> a == b
  {
    assert (chunk + a)[|chunk|..] == a && (chunk + b)[|chunk|..] == b;
  }

  /** Encoding what a text decodes to gives back the text, trimmed, exactly when
      it is empty or the spare bits of its last chunk are zero. */
  lemma {:induction false} EncodeInvertsDecode(text: string)
    requires Decode(text).Some?
    ensures Encode(Decode(text).value) == Trim(text) <==> Trim(text) == "" || (|Trim(text)| >= 4 && SpareBitsZero(Trim(text)[|Trim(text)| - 4..]))
  {
    if Trim(text) != "" { DecodedText(Trim(text)); }
  }
}
