/** What the connectors share: optional and failing results, and a few facts
    about sequences that several modules use. */
module Common {

  datatype Option<+T> = None | Some(value: T)

  datatype Result<+T, +E> = Ok(value: T) | Err(error: E)

  /** The value a map holds for a key, if it holds one. */
  function Get<K, V>(m: map<K, V>, k: K): Option<V> {
    if k in m then Some(m[k]) else None
  }

  ghost predicate Distinct<T>(s: seq<T>) {
    forall i, j :: 0 <= i < j < |s| ==> s[i] != s[j]
  }

  ghost predicate Increasing(s: seq<nat>) {
    forall i, j :: 0 <= i < j < |s| ==> s[i] < s[j]
  }

  /** Every offset of `[from, next)` was written, once and in order, or holds
      nothing readable; and nothing was written but what was once recorded. */
  ghost predicate Covers(recorded: set<nat>, readable: set<nat>, written: seq<nat>, from: nat, next: nat) {
    && from <= next && Increasing(written)
    && (forall i :: 0 <= i < |written| ==> from <= written[i] < next && written[i] in recorded)
    && (forall o :: from <= o < next && o in readable ==> o in written)
  }

  /** One run's offsets follow on from those before. */
  lemma CoversJoin(recorded: set<nat>, readable: set<nat>, a: seq<nat>, b: seq<nat>, from: nat, mid: nat, to: nat)
    requires Covers(recorded, readable, a, from, mid) && Covers(recorded, readable, b, mid, to)
    ensures Covers(recorded, readable, a + b, from, to)
  {
  }

  function Min(a: int, b: int): (m: int)
    ensures m <= a && m <= b && (m == a || m == b)
  {
    if a <= b then a else b
  }

  function Max(a: int, b: int): (m: int)
    ensures m >= a && m >= b && (m == a || m == b)
  {
    if a >= b then a else b
  }

  lemma KeysGrow<K, V>(m: map<K, V>, k: K, v: V)
    ensures m[k := v].Keys == m.Keys + {k}
  {
  }

  function Digit(n: nat): char
    requires n < 10
  {
    ('0' as int + n) as char
  }

  /** The number some digits stand for. */
  function Decimal(s: string): int {
    if s == "" then 0 else 10 * Decimal(s[..|s| - 1]) + (s[|s| - 1] as int - '0' as int)
  }

  /** A number as it is written. */
  function Digits(n: nat): (s: string)
    ensures s != "" && '0' <= s[|s| - 1] <= '9'
  {
    if n < 10 then [Digit(n)] else Digits(n / 10) + [Digit(n % 10)]
  }

  lemma {:induction false} DigitsTell(n: nat)
    ensures Decimal(Digits(n)) == n
  {
    if n >= 10 {
      DigitsTell(n / 10);
      assert Digits(n)[..|Digits(n)| - 1] == Digits(n / 10);
    } else {
      assert Digits(n)[..0] == "";
    }
  }

  lemma Multiplied(a: nat, b: nat, size: nat)
    ensures a <= b ==> a * size <= b * size
  {
  }

  lemma Quotient(n: nat, d: nat, q: nat, r: nat)
    requires r < d && n == q * d + r
    ensures n / d == q && n % d == r
  {
    Multiplied(n / d + 1, q, d);
    Multiplied(q + 1, n / d, d);
  }

  lemma Assoc<T>(a: seq<T>, b: seq<T>, c: seq<T>)
    ensures a + b + c == a + (b + c)
    ensures a + [] == a && [] + a == a
  {
  }

  lemma Slices<T>(s: seq<T>, a: nat, b: nat)
    requires a <= b <= |s|
    ensures s[..a] + s[a..b] == s[..b]
    ensures b < |s| ==> s[a..b] + [s[b]] == s[a..b + 1]
  {
  }

  lemma {:induction false} SmallerOrEqualSet<T>(a: set<T>, b: set<T>)
    requires a <= b
    ensures |a| <= |b|
  {
    if a != {} {
      var x :| x in a;
      SmallerOrEqualSet(a - {x}, b - {x});
    }
  }

  lemma SmallerSet<T>(a: set<T>, b: set<T>)
    requires a < b
    ensures |a| < |b|
  {
    var x :| x in b && x !in a;
    SmallerOrEqualSet(a, b - {x});
  }

  /** Unicode's white space, which text is trimmed of. */
  predicate White(c: char) {
    var n := c as int;
    || 9 <= n <= 13 || n == 0x20 || n == 0x85 || n == 0xa0 || n == 0x1680
    || 0x2000 <= n <= 0x200a || n == 0x2028 || n == 0x2029 || n == 0x202f || n == 0x205f || n == 0x3000
  }

  predicate Trimmed(s: string) {
    s == "" || (!White(s[0]) && !White(s[|s| - 1]))
  }

  function Trim(s: string): (t: string)
    ensures Trimmed(t)
    ensures forall c :: c in t ==> c in s
    ensures Trimmed(s) ==> t == s
  {
    if s == "" then ""
    else if White(s[0]) then Trim(s[1..])
    else if White(s[|s| - 1]) then Trim(s[..|s| - 1])
    else s
  }

  /** The white space of Unicode's PropList, character by character. */
  lemma WhiteSpace(c: char)
    ensures White(c) <==>
      c in "\t\n\U{000B}\U{000C}\r \U{0085}\U{00A0}\U{1680}" || c in "\U{2000}\U{2001}\U{2002}\U{2003}\U{2004}\U{2005}"
      || c in "\U{2006}\U{2007}\U{2008}\U{2009}\U{200A}" || c in "\U{2028}\U{2029}\U{202F}\U{205F}\U{3000}"
  {
  }

  /** Exactly the white space around a text is taken off. */
  lemma {:induction false} TrimTakesOff(before: string, s: string, after: string)
    requires Trimmed(s) && forall c :: c in before || c in after ==> White(c)
    ensures Trim(before + s + after) == s
    decreases |before| + |after|
  {
    var text := before + s + after;
    if before != [] {
      assert text[0] == before[0] && text[1..] == before[1..] + s + after;
      TrimTakesOff(before[1..], s, after);
    } else if s == "" {
      assert text == after;
      if after != [] {
        assert text[1..] == before + s + after[1..];
        TrimTakesOff(before, s, after[1..]);
      }
    } else if after != [] {
      var n := |after| - 1;
      assert text[0] == s[0] && text[|text| - 1] == after[n] && text[..|text| - 1] == before + s + after[..n];
      TrimTakesOff(before, s, after[..n]);
    } else {
      assert text == s;
    }
  }
}
