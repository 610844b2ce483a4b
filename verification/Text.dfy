/** Strings: decimal rendering, numbered ids, trimming and UTF-8 lengths. */
module Text {
  import opened Wrappers

  // ----- decimal numerals and numbered ids ("report:1", "report:2", ...) -----

  function DigitChar(d: nat): char
    requires d < 10
  {
    (48 + d) as char
  }

  function Decimal(n: nat): string {
    if n < 10 then [DigitChar(n)] else Decimal(n / 10) + [DigitChar(n % 10)]
  }

  predicate IsDigit(c: char) {
    '0' <= c <= '9'
  }

  predicate AllDigits(s: string) {
    forall i | 0 <= i < |s| :: IsDigit(s[i])
  }

  /** The number a numeral stands for: the inverse of Decimal. */
  function DecimalValue(s: string): nat
    requires AllDigits(s)
  {
    if s == [] then 0
    else DecimalValue(s[..|s| - 1]) * 10 + (s[|s| - 1] as int - 48)
  }

  lemma {:induction false} DecimalRoundTrip(n: nat)
    ensures Decimal(n) != [] && AllDigits(Decimal(n)) && DecimalValue(Decimal(n)) == n
  {
    if n < 10 {
      assert Decimal(n)[..0] == [];
    } else {
      DecimalRoundTrip(n / 10);
      assert Decimal(n)[..|Decimal(n)| - 1] == Decimal(n / 10);
    }
  }

  /** The id `kind:n`. */
  function Id(kind: string, n: nat): string {
    kind + ":" + Decimal(n)
  }

  /** The number inside an id of the given kind; 0 when the id has no numeral there. */
  function Number(kind: string, id: string): nat {
    if |id| > |kind| && AllDigits(id[|kind| + 1..]) then DecimalValue(id[|kind| + 1..]) else 0
  }

  lemma NumberOfId(kind: string, n: nat)
    ensures Number(kind, Id(kind, n)) == n
  {
    DecimalRoundTrip(n);
    assert Id(kind, n)[|kind| + 1..] == Decimal(n);
  }

  /** Distinct numbers give distinct ids. */
  lemma IdInjective(kind: string, m: nat, n: nat)
    requires Id(kind, m) == Id(kind, n)
    ensures m == n
  {
    NumberOfId(kind, m);
    NumberOfId(kind, n);
  }

  /** The map holds exactly the ids `kind:1 .. kind:(next - 1)`. */
  ghost predicate Numbered<T>(m: map<string, T>, kind: string, next: nat) {
    && next >= 1
    && (forall i | 1 <= i < next :: Id(kind, i) in m)
    && (forall id | id in m :: 1 <= Number(kind, id) < next && id == Id(kind, Number(kind, id)))
  }

  /** The next id is never in use, so an insertion under it loses nothing. */
  lemma NumberedInsert<T>(m: map<string, T>, kind: string, next: nat, v: T)
    requires Numbered(m, kind, next)
    ensures Id(kind, next) !in m
    ensures Numbered(m[Id(kind, next) := v], kind, next + 1)
  {
    NumberOfId(kind, next);
  }

  lemma NumberedUpdate<T>(m: map<string, T>, kind: string, next: nat, id: string, v: T)
    requires Numbered(m, kind, next) && id in m
    ensures Numbered(m[id := v], kind, next)
  {
  }

  lemma NumberedSameKeys<T>(m: map<string, T>, m1: map<string, T>, kind: string, next: nat)
    requires Numbered(m, kind, next) && m1.Keys == m.Keys
    ensures Numbered(m1, kind, next)
  {
    assert forall id :: id in m1 <==> id in m.Keys;
  }

  /** The id is one of `kind:1 .. kind:count`. */
  predicate Known(kind: string, count: nat, id: string) {
    1 <= Number(kind, id) <= count && id == Id(kind, Number(kind, id))
  }

  lemma KnownIffPresent<T>(m: map<string, T>, kind: string, next: nat, id: string)
    requires Numbered(m, kind, next)
    ensures id in m <==> Known(kind, next - 1, id)
  {
  }

  lemma NumberedHas<T>(m: map<string, T>, kind: string, next: nat)
    requires Numbered(m, kind, next)
    ensures forall n | 1 <= n < next :: Id(kind, n) in m
  {
  }

  // ----- UTF-8 -----

  type byte = b: int | 0 <= b < 256

  /** The UTF-8 encoding of one scalar value. */
  function Utf8(c: char): (bytes: seq<byte>)
    ensures 1 <= |bytes| <= 4
    ensures c < '\U{80}' <==> bytes == [c as int]
    ensures c >= '\U{80}' ==> forall b | b in bytes :: b >= 0x80
  {
    var n := c as int;
    if n < 0x80 then [n]
    else if n < 0x800 then [0xC0 + n / 0x40, 0x80 + n % 0x40]
    else if n < 0x1_0000 then [0xE0 + n / 0x1000, 0x80 + n / 0x40 % 0x40, 0x80 + n % 0x40]
    else [0xF0 + n / 0x4_0000, 0x80 + n / 0x1000 % 0x40, 0x80 + n / 0x40 % 0x40, 0x80 + n % 0x40]
  }

  /** `str::bytes`. */
  function Bytes(s: string): seq<byte> {
    if s == [] then [] else Utf8(s[0]) + Bytes(s[1..])
  }

  /** A text whose bytes are all ASCII has one byte for each character. */
  lemma {:induction false} AsciiBytes(s: string)
    ensures (forall i | 0 <= i < |Bytes(s)| :: Bytes(s)[i] < 0x80) <==> (forall i | 0 <= i < |s| :: s[i] < '\U{80}')
    ensures (forall i | 0 <= i < |s| :: s[i] < '\U{80}') ==>
      |Bytes(s)| == |s| && forall i | 0 <= i < |s| :: Bytes(s)[i] == s[i] as int
  {
    if s == [] {
    } else {
      AsciiBytes(s[1..]);
      assert Bytes(s) == Utf8(s[0]) + Bytes(s[1..]);
      if s[0] >= '\U{80}' {
        assert Utf8(s[0])[0] in Utf8(s[0]);
        assert Bytes(s)[0] >= 0x80;
      } else {
        assert Bytes(s)[1..] == Bytes(s[1..]);
        assert forall i | 0 <= i < |s[1..]| :: s[i + 1] == s[1..][i];
        assert forall i | 0 <= i < |Bytes(s[1..])| :: Bytes(s)[i + 1] == Bytes(s[1..])[i];
        if forall i | 0 <= i < |s[1..]| :: s[1..][i] < '\U{80}' {
          assert forall i | 0 < i < |s| :: s[i] == s[1..][i - 1];
          assert forall i | 0 < i < |Bytes(s)| :: Bytes(s)[i] == Bytes(s[1..])[i - 1];
        }
      }
    }
  }

  // ----- trimming and cleaning -----

  /** `char::is_whitespace`: the Unicode White_Space property. */
  predicate IsWhitespace(c: char) {
    || '\U{9}' <= c <= '\U{D}'
    || c == ' '
    || c == '\U{85}'
    || c == '\U{A0}'
    || c == '\U{1680}'
    || '\U{2000}' <= c <= '\U{200A}'
    || '\U{2028}' <= c <= '\U{2029}'
    || c == '\U{202F}'
    || c == '\U{205F}'
    || c == '\U{3000}'
  }

  function TrimStart(s: string): string {
    if s != [] && IsWhitespace(s[0]) then TrimStart(s[1..]) else s
  }

  function TrimEnd(s: string): string {
    if s != [] && IsWhitespace(s[|s| - 1]) then TrimEnd(s[..|s| - 1]) else s
  }

  /** `str::trim`. */
  function Trim(s: string): string {
    TrimEnd(TrimStart(s))
  }

  lemma {:induction false} TrimStartStops(s: string)
    ensures TrimStart(s) == [] || !IsWhitespace(TrimStart(s)[0])
  {
    if s != [] && IsWhitespace(s[0]) {
      TrimStartStops(s[1..]);
    }
  }

  lemma {:induction false} TrimEndStops(s: string)
    ensures TrimEnd(s) <= s && (TrimEnd(s) == [] || !IsWhitespace(TrimEnd(s)[|TrimEnd(s)| - 1]))
  {
    if s != [] && IsWhitespace(s[|s| - 1]) {
      TrimEndStops(s[..|s| - 1]);
    }
  }

  predicate AllWhitespace(s: string) {
    forall i | 0 <= i < |s| :: IsWhitespace(s[i])
  }

  lemma {:induction false} TrimStartDrops(s: string)
    ensures |TrimStart(s)| <= |s|
    ensures var k := |s| - |TrimStart(s)|; s[k..] == TrimStart(s) && AllWhitespace(s[..k])
  {
    if s == [] || !IsWhitespace(s[0]) {
    } else {
      TrimStartDrops(s[1..]);
      var k := |s| - |TrimStart(s)|;
      assert s[..k] == [s[0]] + s[1..][..k - 1];
    }
  }

  lemma {:induction false} TrimEndDrops(s: string)
    ensures TrimEnd(s) <= s && AllWhitespace(s[|TrimEnd(s)|..])
  {
    if s == [] || !IsWhitespace(s[|s| - 1]) {
    } else {
      TrimEndDrops(s[..|s| - 1]);
      var n := |TrimEnd(s)|;
      assert s[n..] == s[..|s| - 1][n..] + [s[|s| - 1]];
    }
  }

  /** Trimming takes away white space at both ends and nothing else, and leaves none there. */
  lemma TrimSplits(s: string) returns (before: string, after: string)
    ensures s == before + Trim(s) + after && AllWhitespace(before) && AllWhitespace(after)
    ensures Trim(s) != [] ==> !IsWhitespace(Trim(s)[0]) && !IsWhitespace(Trim(s)[|Trim(s)| - 1])
  {
    hide IsWhitespace, AllWhitespace, TrimStart, TrimEnd;
    var t := TrimStart(s);
    TrimStartDrops(s);
    TrimStartStops(s);
    TrimEndDrops(t);
    TrimEndStops(t);
    before, after := s[..|s| - |t|], t[|Trim(s)|..];
  }

  lemma TrimIdempotent(s: string)
    ensures Trim(Trim(s)) == Trim(s)
  {
    TrimStartStops(s);
    TrimEndStops(TrimStart(s));
  }

  /** Trimmed text that is not empty, not too long in bytes and free of NUL. */
  function CleanText(value: string, maxLen: nat): Option<string> {
    var trimmed := Trim(value);
    if trimmed == [] || |Bytes(trimmed)| > maxLen || '\0' in trimmed then None else Some(trimmed)
  }

  /** Text that is fine after trimming. */
  predicate Acceptable(text: string, maxLen: nat) {
    Trim(text) != [] && |Bytes(Trim(text))| <= maxLen && '\0' !in Trim(text)
  }

  lemma CleanIffAcceptable(text: string, maxLen: nat)
    ensures CleanText(text, maxLen) == if Acceptable(text, maxLen) then Some(Trim(text)) else None
  {
  }

  function LowerChar(c: char): char {
    if 'A' <= c <= 'Z' then (c as int + 32) as char else c
  }

  /** `str::to_ascii_lowercase`. */
  function AsciiLower(s: string): (r: string)
    ensures |r| == |s|
  {
    if s == [] then [] else [LowerChar(s[0])] + AsciiLower(s[1..])
  }

  /** Equal but for the case of ASCII letters. */
  predicate SameUpToAsciiCase(a: string, b: string) {
    |a| == |b| && forall i | 0 <= i < |a| :: LowerChar(a[i]) == LowerChar(b[i])
  }

  lemma {:induction false} LowerIff(a: string, b: string)
    ensures AsciiLower(a) == AsciiLower(b) <==> SameUpToAsciiCase(a, b)
  {
    if a == [] || b == [] {
      assert AsciiLower(a) == AsciiLower(b) ==> |a| == |b|;
    } else {
      LowerIff(a[1..], b[1..]);
      assert AsciiLower(a)[0] == LowerChar(a[0]) && AsciiLower(a)[1..] == AsciiLower(a[1..]);
      assert AsciiLower(b)[0] == LowerChar(b[0]) && AsciiLower(b)[1..] == AsciiLower(b[1..]);
      if SameUpToAsciiCase(a[1..], b[1..]) && LowerChar(a[0]) == LowerChar(b[0]) {
        forall i | 0 <= i < |a| ensures LowerChar(a[i]) == LowerChar(b[i]) {
          assert i > 0 ==> a[i] == a[1..][i - 1] && b[i] == b[1..][i - 1];
        }
      }
      if SameUpToAsciiCase(a, b) {
        forall i | 0 <= i < |a[1..]| ensures LowerChar(a[1..][i]) == LowerChar(b[1..][i]) {
          assert a[1..][i] == a[i + 1] && b[1..][i] == b[i + 1];
        }
      }
    }
  }

  predicate EndsWith(s: string, suffix: string) {
    |s| >= |suffix| && s[|s| - |suffix|..] == suffix
  }
}
