/** BigQuery's TIMESTAMP cells as microseconds since 1970, computed exactly, in
    text; and back as text. */
module Timestamps {
  import opened Common

  const MAX_MICROS: int := 0x7fff_ffff_ffff_ffff

  function Pow10(n: nat): (p: nat)
    ensures p > 0
  {
    if n == 0 then 1 else 10 * Pow10(n - 1)
  }

  predicate IsDigit(c: char) {
    '0' <= c <= '9'
  }

  predicate AllDigits(s: string) {
    forall i :: 0 <= i < |s| ==> IsDigit(s[i])
  }

  function Zeros(n: nat): string {
    seq(n, _ => '0')
  }

  /** A sum in 32 bits, without overflow checks. */
  function Wrap32(n: int): int {
    (n + 0x8000_0000) % 0x1_0000_0000 - 0x8000_0000
  }

  // -------------------------------------------------------------------------
  // The computation, on the digits
  // -------------------------------------------------------------------------

  /** The digits of the microseconds: the decimal point moves by the exponent and
      six more. */
  function MicrosDigits(whole: string, fraction: string, exponent: int): string {
    var digits, point := whole + fraction, Wrap32(|whole| + exponent + 6);
    if point <= 0 then "0"
    else if point >= |digits| then digits + Zeros(point - |digits|)
    else digits[..point]
  }

  function Micros(negative: bool, whole: string, fraction: string, exponent: int): Option<int> {
    if whole + fraction == "" || !AllDigits(whole + fraction) then None
    else
      var micros := Decimal(MicrosDigits(whole, fraction, exponent));
      if micros > MAX_MICROS then None else Some(if negative then -micros else micros)
  }

  /** What the text says: the digits times ten to the exponent, in microseconds,
      without what is less than one. */
  function Exact(whole: string, fraction: string, exponent: int): int {
    var shift := exponent + 6 - |fraction|;
    if shift >= 0 then Decimal(whole + fraction) * Pow10(shift) else Decimal(whole + fraction) / Pow10(-shift)
  }

  /** The exact value, if a 64-bit number can hold its magnitude. */
  function ExactMicros(negative: bool, whole: string, fraction: string, exponent: int): Option<int> {
    var micros := Exact(whole, fraction, exponent);
    if micros > MAX_MICROS then None else Some(if negative then -micros else micros)
  }

  lemma {:induction false} DecimalOfDigits(s: string)
    requires AllDigits(s)
    ensures 0 <= Decimal(s) < Pow10(|s|)
  {
    if s != "" { DecimalOfDigits(s[..|s| - 1]); }
  }

  lemma {:induction false} DecimalJoins(a: string, b: string)
    ensures Decimal(a + b) == Decimal(a) * Pow10(|b|) + Decimal(b)
    decreases |b|
  {
    if b == "" {
      assert a + b == a;
    } else {
      var n := |b| - 1;
      assert (a + b)[..|a + b| - 1] == a + b[..n];
      DecimalJoins(a, b[..n]);
      assert 10 * (Decimal(a) * Pow10(n)) == Decimal(a) * (10 * Pow10(n));
    }
  }

  lemma {:induction false} DecimalOfZeros(n: nat)
    ensures Decimal(Zeros(n)) == 0
  {
    if n > 0 {
      assert Zeros(n)[..n - 1] == Zeros(n - 1);
      DecimalOfZeros(n - 1);
    }
  }

  lemma {:induction false} Pow10Grows(m: nat, n: nat)
    requires m <= n
    ensures Pow10(m) <= Pow10(n)
  {
    if m < n { Pow10Grows(m, n - 1); } else if n > 0 { Pow10Grows(m - 1, n - 1); }
  }

  /** The first digits are what is left of the number without the others. */
  lemma {:induction false} FirstDigits(digits: string, p: nat)
    requires p <= |digits| && AllDigits(digits)
    ensures Decimal(digits[..p]) == Decimal(digits) / Pow10(|digits| - p)
  {
    var high, low := digits[..p], digits[p..];
    assert high + low == digits;
    DecimalJoins(high, low);
    DecimalOfDigits(digits);
    DecimalOfDigits(high);
    DecimalOfDigits(low);
    Quotient(Decimal(digits), Pow10(|low|), Decimal(high), Decimal(low));
  }

  lemma {:induction false} NoDigits(digits: string, n: nat)
    requires AllDigits(digits) && n >= |digits|
    ensures Decimal(digits) / Pow10(n) == 0
  {
    DecimalOfDigits(digits);
    Pow10Grows(|digits|, n);
    Quotient(Decimal(digits), Pow10(n), 0, Decimal(digits));
  }

  /** A number of digits, and an exponent, that fit their types. */
  predicate Sized(whole: string, fraction: string, exponent: int) {
    && |whole| + |fraction| < 0x4000_0000 && -0x8000_0000 <= exponent < 0x8000_0000
    && whole + fraction != "" && AllDigits(whole + fraction)
  }

  predicate Overflows(whole: string, exponent: int) {
    |whole| + exponent + 6 >= 0x8000_0000
  }

  /** The digits of the microseconds are those of the exact value. */
  lemma DigitsExact(whole: string, fraction: string, exponent: int)
    requires Sized(whole, fraction, exponent) && !Overflows(whole, exponent)
    ensures Decimal(MicrosDigits(whole, fraction, exponent)) == Exact(whole, fraction, exponent)
  {
    var digits, point := whole + fraction, |whole| + exponent + 6;
    Wraps(point);
    if point <= 0 {
      NoDigits(digits, |digits| - point);
    } else if point >= |digits| {
      MoreDigits(digits, point - |digits|);
    } else {
      FirstDigits(digits, point);
    }
  }

  lemma {:induction false} MoreDigits(digits: string, n: nat)
    ensures Decimal(digits + Zeros(n)) == Decimal(digits) * Pow10(n)
  {
    DecimalJoins(digits, Zeros(n));
    DecimalOfZeros(n);
  }

  /** Sums of this size, in 32 bits; and what `0` stands for. */
  lemma Wraps(n: int)
    requires -0x8000_0000 <= n < 0x1_0000_0000
    ensures Wrap32(n) == if n < 0x8000_0000 then n else n - 0x1_0000_0000
    ensures Decimal("0") == 0
  {
    assert Decimal("0") == 10 * Decimal("") + 0;
  }

  /** A sum past 32 bits comes out negative, and the result as zero. */
  lemma {:induction false} OverflowIsZero(whole: string, fraction: string, exponent: int)
    requires Sized(whole, fraction, exponent) && Overflows(whole, exponent)
    ensures Decimal(MicrosDigits(whole, fraction, exponent)) == 0
    ensures Exact(whole, fraction, exponent) > MAX_MICROS || Decimal(whole + fraction) == 0
    ensures Decimal(whole + fraction) == 0 ==> Exact(whole, fraction, exponent) == 0
  {
    Wraps(|whole| + exponent + 6);
    var shift := exponent + 6 - |fraction|;
    DecimalOfDigits(whole + fraction);
    Pow10Grows(19, shift);
    assert Pow10(19) == 10_000_000_000_000_000_000 by {
      assert Pow10(9) == 1_000_000_000;
      assert Pow10(18) == 1_000_000_000_000_000_000;
    }
    Multiplied(1, Decimal(whole + fraction), Pow10(shift));
  }

  /** The result is exact, truncated toward zero, or nothing when 64 bits cannot
      hold it: unless the exponent is so large that placing the point goes past
      32 bits, when the result is zero. */
  lemma {:induction false} ExactUnlessOverflow(negative: bool, whole: string, fraction: string, exponent: int)
    requires Sized(whole, fraction, exponent)
    ensures Micros(negative, whole, fraction, exponent) == ExactMicros(negative, whole, fraction, exponent)
       <==> !(Overflows(whole, exponent) && Decimal(whole + fraction) != 0)
  {
    if Overflows(whole, exponent) {
      OverflowIsZero(whole, fraction, exponent);
    } else {
      DigitsExact(whole, fraction, exponent);
    }
  }

  /** As in this text: ten to the largest exponent there is, as zero. */
  lemma LargestExponent()
    ensures Micros(false, "1", "", 0x7fff_ffff) == Some(0) && ExactMicros(false, "1", "", 0x7fff_ffff) == None
  {
    assert Decimal("1") == 10 * Decimal("") + 1 && "1" + "" == "1";
    OverflowIsZero("1", "", 0x7fff_ffff);
  }

  // -------------------------------------------------------------------------
  // The text of a cell
  // -------------------------------------------------------------------------

  /** Where the first of some characters is, or the length. */
  function IndexOf(s: string, chars: set<char>): (n: nat)
    ensures n <= |s| && (n < |s| ==> s[n] in chars)
    ensures forall i :: 0 <= i < n ==> s[i] !in chars
  {
    if s == "" || s[0] in chars then 0 else 1 + IndexOf(s[1..], chars)
  }

  /** A whole number with perhaps a sign, if it is one and within bounds. */
  function ParseInt(s: string, low: int, high: int): Option<int> {
    var body := if s != "" && (s[0] == '-' || s[0] == '+') then s[1..] else s;
    if body == "" || !AllDigits(body) then None
    else
      var n := if s[0] == '-' then -Decimal(body) else Decimal(body);
      if low <= n <= high then Some(n) else None
  }

  function Unsigned(s: string): string {
    if s != "" && (s[0] == '-' || s[0] == '+') then Unsigned(s[1..]) else s
  }

  /** What a mantissa with a sign and perhaps a point is worth at an exponent. */
  function FromSeconds(mantissa: string, exponent: int): Option<int> {
    var digits := Unsigned(mantissa);
    var n := IndexOf(digits, {'.'});
    Micros(mantissa != "" && mantissa[0] == '-', digits[..n], if n < |digits| then digits[n + 1..] else "", exponent)
  }

  /** A cell: microseconds if it has neither point nor exponent, else seconds. */
  function TimestampMicros(cell: string): Option<int> {
    var text := Trim(cell);
    var e := IndexOf(text, {'E', 'e'});
    if e < |text| then
      var exponent := ParseInt(text[e + 1..], -0x8000_0000, 0x7fff_ffff);
      if exponent.None? then None else FromSeconds(text[..e], exponent.value)
    else if '.' in text then FromSeconds(text, 0)
    else ParseInt(text, -MAX_MICROS - 1, MAX_MICROS)
  }

  lemma {:induction false} IndexIs(s: string, chars: set<char>, n: nat)
    requires n <= |s| && (forall i :: 0 <= i < n ==> s[i] !in chars) && (n < |s| ==> s[n] in chars)
    ensures IndexOf(s, chars) == n
  {
    if n > 0 { IndexIs(s[1..], chars, n - 1); }
  }

  /** The digits before the exponent, with or without a point. */
  function MantissaOf(negative: bool, whole: string, fraction: Option<string>): string {
    (if negative then "-" else "") + whole + if fraction.Some? then "." + fraction.value else ""
  }

  function FractionOf(fraction: Option<string>): string {
    if fraction.Some? then fraction.value else ""
  }

  /** Of several signs the first counts. */
  lemma FirstSignCounts(sign: char, other: char, mantissa: string, exponent: int)
    requires sign in {'-', '+'} && other in {'-', '+'}
    ensures FromSeconds([sign, other] + mantissa, exponent) == FromSeconds([sign] + mantissa, exponent)
  {
    var longer, shorter := [sign, other] + mantissa, [sign] + mantissa;
    assert longer[1..] == [other] + mantissa && longer[1..][1..] == mantissa && shorter[1..] == mantissa;
  }

  /** A number in scientific notation, as BigQuery writes it. */
  function Scientific(negative: bool, whole: string, fraction: Option<string>, exponent: string): string {
    MantissaOf(negative, whole, fraction) + "E" + exponent
  }

  predicate Compact(s: string) {
    forall i :: 0 <= i < |s| ==> !White(s[i])
  }

  lemma {:induction false} CompactStays(s: string)
    requires Compact(s)
    ensures Trim(s) == s
  {
  }

  lemma Mantissa(negative: bool, whole: string, fraction: Option<string>, exponent: int)
    requires AllDigits(whole + FractionOf(fraction))
    ensures FromSeconds(MantissaOf(negative, whole, fraction), exponent) == Micros(negative, whole, FractionOf(fraction), exponent)
  {
    var digits, mantissa := MantissaOf(false, whole, fraction), MantissaOf(negative, whole, fraction);
    MantissaParts(whole, fraction);
    if negative {
      assert mantissa[0] == '-' && mantissa[1..] == digits;
      assert Unsigned(mantissa) == Unsigned(digits);
    } else {
      assert mantissa == digits;
    }
  }

  /** The parts of a mantissa without a sign. */
  lemma MantissaParts(whole: string, fraction: Option<string>)
    requires AllDigits(whole + FractionOf(fraction))
    ensures var digits := MantissaOf(false, whole, fraction);
      && Unsigned(digits) == digits && (digits != "" ==> digits[0] != '-')
      && IndexOf(digits, {'.'}) == |whole| && digits[..|whole|] == whole
      && (if fraction.Some? then |digits| > |whole| && digits[|whole| + 1..] == fraction.value else |digits| == |whole|)
  {
    var digits := MantissaOf(false, whole, fraction);
    assert digits == whole + if fraction.Some? then "." + fraction.value else "";
    forall i | 0 <= i < |whole| ensures digits[i] == whole[i] && IsDigit(whole[i]) {
      assert (whole + FractionOf(fraction))[i] == whole[i];
    }
    IndexIs(digits, {'.'}, |whole|);
  }

  /** The cell of a mantissa and an exponent is worth what they are. */
  lemma ScientificCell(negative: bool, whole: string, fraction: Option<string>, exponent: string, n: int)
    requires AllDigits(whole + FractionOf(fraction)) && Compact(exponent)
    requires ParseInt(exponent, -0x8000_0000, 0x7fff_ffff) == Some(n)
    ensures TimestampMicros(Scientific(negative, whole, fraction, exponent)) == Micros(negative, whole, FractionOf(fraction), n)
  {
    var mantissa := MantissaOf(negative, whole, fraction);
    var cell := Scientific(negative, whole, fraction, exponent);
    PlainMantissa(negative, whole, fraction);
    CompactStays(cell);
    IndexIs(cell, {'E', 'e'}, |mantissa|);
    assert cell[..|mantissa|] == mantissa && cell[|mantissa| + 1..] == exponent;
    Mantissa(negative, whole, fraction, n);
  }

  lemma PlainMantissa(negative: bool, whole: string, fraction: Option<string>)
    requires AllDigits(whole + FractionOf(fraction))
    ensures var mantissa := MantissaOf(negative, whole, fraction);
      forall i :: 0 <= i < |mantissa| ==> !White(mantissa[i]) && mantissa[i] != 'E' && mantissa[i] != 'e'
  {
    var sign := if negative then "-" else "";
    var mantissa, digits := MantissaOf(negative, whole, fraction), whole + FractionOf(fraction);
    forall i | 0 <= i < |mantissa| ensures mantissa[i] == '-' || mantissa[i] == '.' || IsDigit(mantissa[i]) {
      if |sign| <= i < |sign| + |whole| { assert mantissa[i] == digits[i - |sign|]; }
      if i > |sign| + |whole| { assert mantissa[i] == digits[i - |sign| - 1]; }
    }
  }

  lemma {:induction false} NoneOf(s: string, chars: set<char>)
    requires forall i :: 0 <= i < |s| ==> s[i] !in chars
    ensures IndexOf(s, chars) == |s|
  {
    IndexIs(s, chars, |s|);
  }

  /** A cell with a point and no exponent is seconds. */
  lemma {:induction false} DecimalCell(negative: bool, whole: string, fraction: string)
    requires AllDigits(whole + fraction)
    ensures TimestampMicros(MantissaOf(negative, whole, Some(fraction))) == Micros(negative, whole, fraction, 0)
  {
    var cell := MantissaOf(negative, whole, Some(fraction));
    PlainMantissa(negative, whole, Some(fraction));
    CompactStays(cell);
    NoneOf(cell, {'E', 'e'});
    assert cell[|cell| - |fraction| - 1] == '.';
    Mantissa(negative, whole, Some(fraction), 0);
  }

  /** A cell of digits alone, with a sign or not, is the microseconds themselves,
      if 64 bits can hold them. */
  lemma {:induction false} IntegerCell(sign: string, digits: string)
    requires AllDigits(digits) && digits != "" && (sign == "" || sign == "-" || sign == "+")
    ensures var n := if sign == "-" then -Decimal(digits) else Decimal(digits);
      TimestampMicros(sign + digits) == if -0x8000_0000_0000_0000 <= n < 0x8000_0000_0000_0000 then Some(n) else None
  {
    var cell := sign + digits;
    forall i | 0 <= i < |cell| ensures !White(cell[i]) && cell[i] !in {'E', 'e', '.'} {
      if i >= |sign| { assert cell[i] == digits[i - |sign|]; } else { assert cell[i] == sign[i]; }
    }
    CompactStays(cell);
    NoneOf(cell, {'E', 'e'});
    SignedParses(sign, digits);
  }

  lemma {:induction false} SignedParses(sign: string, digits: string)
    requires AllDigits(digits) && digits != "" && (sign == "" || sign == "-" || sign == "+")
    ensures var n := if sign == "-" then -Decimal(digits) else Decimal(digits);
      ParseInt(sign + digits, -MAX_MICROS - 1, MAX_MICROS) == if -0x8000_0000_0000_0000 <= n < 0x8000_0000_0000_0000 then Some(n) else None
  {
    if sign == "" {
      assert sign + digits == digits && IsDigit(digits[0]);
    } else {
      assert (sign + digits)[1..] == digits && (sign + digits)[0] == sign[0];
    }
  }

  lemma {:induction false} DigitsWritten(n: nat)
    ensures AllDigits(Digits(n))
  {
    if n >= 10 { DigitsWritten(n / 10); }
  }

  /** A number of microseconds as it is written is read as that number. */
  lemma WrittenInteger(n: int)
    requires -0x8000_0000_0000_0000 <= n < 0x8000_0000_0000_0000
    ensures TimestampMicros(if n < 0 then "-" + Digits(-n) else Digits(n)) == Some(n)
  {
    var m := if n < 0 then -n else n;
    DigitsWritten(m);
    DigitsTell(m);
    IntegerCell(if n < 0 then "-" else "", Digits(m));
    assert "" + Digits(m) == Digits(m);
  }

  predicate NumberLike(s: string) {
    forall i :: 0 <= i < |s| ==> s[i] in "0123456789+-.eE"
  }

  predicate HasDigit(s: string) {
    exists i :: 0 <= i < |s| && '0' <= s[i] <= '9'
  }

  /** Nothing is made of a cell that has another character than a number's, or no
      digit. */
  lemma {:induction false} ReadsNumbersOnly(cell: string)
    requires TimestampMicros(cell).Some?
    ensures NumberLike(Trim(cell)) && HasDigit(Trim(cell))
  {
    var text := Trim(cell);
    var e := IndexOf(text, {'E', 'e'});
    if e < |text| {
      MantissaRead(text[..e], ParseInt(text[e + 1..], -0x8000_0000, 0x7fff_ffff).value);
      IntegerRead(text[e + 1..], -0x8000_0000, 0x7fff_ffff);
      Around(text, e);
    } else if '.' in text {
      MantissaRead(text, 0);
    } else {
      IntegerRead(text, -MAX_MICROS - 1, MAX_MICROS);
    }
  }

  lemma Around(s: string, e: nat)
    requires e < |s| && (s[e] == 'e' || s[e] == 'E') && NumberLike(s[..e]) && NumberLike(s[e + 1..]) && HasDigit(s[..e])
    ensures NumberLike(s) && HasDigit(s)
  {
    forall i | 0 <= i < |s| ensures s[i] in "0123456789+-.eE" {
      if i < e { assert s[..e][i] == s[i]; } else if i > e { assert s[e + 1..][i - e - 1] == s[i]; }
    }
    var i :| 0 <= i < |s[..e]| && '0' <= s[..e][i] <= '9';
    assert '0' <= s[i] <= '9';
  }

  lemma IntegerRead(s: string, low: int, high: int)
    requires ParseInt(s, low, high).Some?
    ensures NumberLike(s) && HasDigit(s)
  {
    var signed := s[0] == '-' || s[0] == '+';
    var body := if signed then s[1..] else s;
    assert forall i :: 0 <= i < |body| ==> body[i] == s[if signed then i + 1 else i];
    assert IsDigit(body[0]);
    forall i | 0 <= i < |s| ensures s[i] in "0123456789+-.eE" {
      if !signed || i > 0 { assert IsDigit(body[if signed then i - 1 else i]); }
    }
  }

  lemma {:induction false} SignsAside(s: string)
    ensures NumberLike(Unsigned(s)) ==> NumberLike(s)
    ensures HasDigit(Unsigned(s)) ==> HasDigit(s)
  {
    if s != "" && (s[0] == '-' || s[0] == '+') {
      SignsAside(s[1..]);
      assert s == [s[0]] + s[1..];
    }
  }

  lemma PointAside(digits: string, n: nat, both: string)
    requires n <= |digits| && (n < |digits| ==> digits[n] == '.') && AllDigits(both) && both != ""
    requires both == digits[..n] + if n < |digits| then digits[n + 1..] else ""
    ensures NumberLike(digits) && HasDigit(digits)
  {
    forall i | 0 <= i < |digits| && i != n ensures IsDigit(digits[i]) {
      assert digits[i] == both[if i < n then i else i - 1];
    }
    assert IsDigit(digits[if n > 0 then 0 else 1]);
  }

  lemma MantissaRead(mantissa: string, exponent: int)
    requires FromSeconds(mantissa, exponent).Some?
    ensures NumberLike(mantissa) && HasDigit(mantissa)
  {
    var digits := Unsigned(mantissa);
    var n := IndexOf(digits, {'.'});
    PointAside(digits, n, digits[..n] + if n < |digits| then digits[n + 1..] else "");
    SignsAside(mantissa);
  }

  // -------------------------------------------------------------------------
  // Back as text
  // -------------------------------------------------------------------------

  const DAY: int := 86_400_000_000

  datatype Fields = Fields(days: int, hour: int, minute: int, second: int, micro: int)

  function FieldsOf(micros: int): Fields {
    var within := micros % DAY;
    Fields(micros / DAY, within / 3_600_000_000, within / 60_000_000 % 60, within / 1_000_000 % 60, within % 1_000_000)
  }

  /** The fields are in range, and make up the microseconds again: before 1970,
      too. */
  lemma FieldsReassemble(micros: int)
    ensures var f := FieldsOf(micros);
      && 0 <= f.hour < 24 && 0 <= f.minute < 60 && 0 <= f.second < 60 && 0 <= f.micro < 1_000_000
      && micros == f.days * DAY + ((f.hour * 60 + f.minute) * 60 + f.second) * 1_000_000 + f.micro
  {
    var within := micros % DAY;
    var seconds := within / 1_000_000;
    Quotient(within, 60_000_000, seconds / 60, seconds % 60 * 1_000_000 + within % 1_000_000);
    var minutes := seconds / 60;
    Quotient(within, 3_600_000_000, minutes / 60, minutes % 60 * 60_000_000 + within % 60_000_000);
  }

  /** A number in so many digits. */
  function Padded(n: nat, width: nat): (s: string)
    ensures |s| == width
  {
    if width == 0 then "" else Padded(n / 10, width - 1) + [Digit(n % 10)]
  }

  lemma {:induction false} PaddedTells(n: nat, width: nat)
    requires n < Pow10(width)
    ensures Decimal(Padded(n, width)) == n
  {
    if width > 0 {
      PaddedTells(n / 10, width - 1);
      assert Padded(n, width)[..width - 1] == Padded(n / 10, width - 1);
    }
  }

  function TimeText(f: Fields): string
    requires f.hour >= 0 && f.minute >= 0 && f.second >= 0 && f.micro >= 0
  {
    " " + Padded(f.hour, 2) + ":" + Padded(f.minute, 2) + ":" + Padded(f.second, 2) + "." + Padded(f.micro, 6)
  }

  /** `date` is the text of a day's civil date. */
  function MicrosText(date: int -> string, micros: int): string {
    FieldsReassemble(micros);
    date(FieldsOf(micros).days) + TimeText(FieldsOf(micros))
  }

  lemma TimeTells(f: Fields)
    requires 0 <= f.hour < 24 && 0 <= f.minute < 60 && 0 <= f.second < 60 && 0 <= f.micro < 1_000_000
    ensures |TimeText(f)| == 16
    ensures f.hour == Decimal(TimeText(f)[1..3]) && f.minute == Decimal(TimeText(f)[4..6])
    ensures f.second == Decimal(TimeText(f)[7..9]) && f.micro == Decimal(TimeText(f)[10..16])
  {
    var text := TimeText(f);
    assert Pow10(2) == 100 && Pow10(6) == 1_000_000;
    PaddedTells(f.hour, 2);
    PaddedTells(f.minute, 2);
    PaddedTells(f.second, 2);
    PaddedTells(f.micro, 6);
    assert text[1..3] == Padded(f.hour, 2) && text[4..6] == Padded(f.minute, 2);
    assert text[7..9] == Padded(f.second, 2) && text[10..16] == Padded(f.micro, 6);
  }

  /** A text is the day's date, and the time of day in digits, from which the
      microseconds can be read again. */
  lemma MicrosTextReads(date: int -> string, micros: int)
    ensures var text := MicrosText(date, micros); var n := |text| - 16;
      && n >= 0 && text[..n] == date(micros / DAY)
      && text[n] == ' ' && text[n + 3] == ':' && text[n + 6] == ':' && text[n + 9] == '.'
      && micros == micros / DAY * DAY
           + ((Decimal(text[n + 1..n + 3]) * 60 + Decimal(text[n + 4..n + 6])) * 60 + Decimal(text[n + 7..n + 9])) * 1_000_000
           + Decimal(text[n + 10..n + 16])
  {
    var f, text := FieldsOf(micros), MicrosText(date, micros);
    var n := |text| - 16;
    FieldsReassemble(micros);
    TimeTells(f);
    TimeMarks(f);
    assert text == date(f.days) + TimeText(f) && text[n..] == TimeText(f);
    TailSlices(date(f.days), TimeText(f));
  }

  lemma TimeMarks(f: Fields)
    requires f.hour >= 0 && f.minute >= 0 && f.second >= 0 && f.micro >= 0
    ensures |TimeText(f)| == 16 && TimeText(f)[0] == ' ' && TimeText(f)[3] == ':' && TimeText(f)[6] == ':' && TimeText(f)[9] == '.'
  {
  }

  lemma TailSlices(a: string, b: string)
    requires |b| == 16
    ensures var text, n := a + b, |a|;
      && text[..n] == a && text[n + 1..n + 3] == b[1..3] && text[n + 4..n + 6] == b[4..6]
      && text[n + 7..n + 9] == b[7..9] && text[n + 10..n + 16] == b[10..16]
      && forall i :: 0 <= i < 16 ==> text[n + i] == b[i]
  {
  }

  /** Different times have different texts, as different days have different
      dates. */
  lemma MicrosTextTells(date: int -> string, a: int, b: int)
    requires forall d, e :: date(d) == date(e) ==> d == e
    requires MicrosText(date, a) == MicrosText(date, b)
    ensures a == b
  {
    var f, g := FieldsOf(a), FieldsOf(b);
    FieldsReassemble(a);
    FieldsReassemble(b);
    TimeTells(f);
    TimeTells(g);
    var text := MicrosText(date, a);
    assert text[..|text| - 16] == date(f.days) && text[..|text| - 16] == date(g.days);
    assert text[|text| - 16..] == TimeText(f) && text[|text| - 16..] == TimeText(g);
  }
}
