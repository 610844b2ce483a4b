/** Session tokens in hexadecimal and the session cookie: printing it and finding it again. */
module Cookies {
  import opened Wrappers
  import opened Text

  const SESSION_COOKIE_NAME := "mythenheim_session"
  const SESSION_TTL_SECS := 60 * 60 * 24 * 14
  const SESSION_TOKEN_BYTES := 32

  // ----- hexadecimal -----

  function HexDigit(n: nat): char
    requires n < 16
  {
    if n < 10 then (48 + n) as char else (87 + n) as char
  }

  function Hex(bytes: seq<byte>): string {
    if bytes == [] then ""
    else
      var last := bytes[|bytes| - 1];
      Hex(bytes[..|bytes| - 1]) + [HexDigit(last / 16), HexDigit(last % 16)]
  }

  /** `hex_encode` */
  method HexEncode(bytes: seq<byte>) returns (output: string)
    ensures output == Hex(bytes)
  {
    output := "";
    for i := 0 to |bytes|
      invariant output == Hex(bytes[..i])
    {
      assert bytes[..i + 1][..i] == bytes[..i];
      output := output + [HexDigit(bytes[i] / 16)];
      output := output + [HexDigit(bytes[i] % 16)];
    }
    assert bytes[..|bytes|] == bytes;
  }

  function HexValue(c: char): nat {
    if '0' <= c <= '9' then c as int - 48 else if 'a' <= c <= 'f' then c as int - 87 else 0
  }

  /** The bytes a hexadecimal string stands for: the inverse of Hex. */
  function Unhex(s: string): seq<nat> {
    if |s| < 2 then []
    else Unhex(s[..|s| - 2]) + [HexValue(s[|s| - 2]) * 16 + HexValue(s[|s| - 1])]
  }

  predicate IsHexByte(b: byte) {
    48 <= b <= 57 || 97 <= b <= 102 || 65 <= b <= 70
  }

  lemma DigitRoundTrip(n: nat)
    requires n < 16
    ensures HexValue(HexDigit(n)) == n && HexDigit(n) < '\U{80}' && IsHexByte(HexDigit(n) as int)
  {
  }

  lemma HexGrows(bytes: seq<byte>)
    requires bytes != []
    ensures var before, last := bytes[..|bytes| - 1], bytes[|bytes| - 1];
            Hex(bytes) == Hex(before) + [HexDigit(last / 16), HexDigit(last % 16)]
  {
  }

  lemma {:induction false} HexDigitsOnly(bytes: seq<byte>)
    ensures |Hex(bytes)| == 2 * |bytes|
    ensures forall c | c in Hex(bytes) :: c < '\U{80}' && IsHexByte(c as int)
  {
    if bytes == [] {
    } else {
      var last := bytes[|bytes| - 1];
      HexDigitsOnly(bytes[..|bytes| - 1]);
      HexGrows(bytes);
      DigitRoundTrip(last / 16);
      DigitRoundTrip(last % 16);
      hide Hex, HexDigit, IsHexByte;
    }
  }

  /** Twice as long, all hexadecimal digits, and nothing is lost. */
  lemma {:induction false} HexRoundTrip(bytes: seq<byte>)
    ensures |Hex(bytes)| == 2 * |bytes| && Unhex(Hex(bytes)) == bytes
    ensures forall i | 0 <= i < |Hex(bytes)| :: Hex(bytes)[i] < '\U{80}' && IsHexByte(Hex(bytes)[i] as int)
  {
    hide HexDigit, HexValue, IsHexByte, Hex;
    HexDigitsOnly(bytes);
    if bytes == [] {
      assert Hex(bytes) == [];
    } else {
      var before, last := bytes[..|bytes| - 1], bytes[|bytes| - 1];
      HexRoundTrip(before);
      HexGrows(bytes);
      assert Hex(bytes)[..|Hex(bytes)| - 2] == Hex(before);
      DigitRoundTrip(last / 16);
      DigitRoundTrip(last % 16);
      assert last / 16 * 16 + last % 16 == last;
    }
  }

  lemma HexInjective(a: seq<byte>, b: seq<byte>)
    requires Hex(a) == Hex(b)
    ensures a == b
  {
    HexRoundTrip(a);
    HexRoundTrip(b);
  }

  /** `plausible_session_token` */
  predicate Plausible(secret: string) {
    |Bytes(secret)| == 2 * SESSION_TOKEN_BYTES && forall i | 0 <= i < |Bytes(secret)| :: IsHexByte(Bytes(secret)[i])
  }

  /** Every generated token is plausible. */
  lemma TokensArePlausible(bytes: seq<byte>)
    requires |bytes| == SESSION_TOKEN_BYTES
    ensures Plausible(Hex(bytes))
  {
    HexRoundTrip(bytes);
    AsciiBytes(Hex(bytes));
  }

  lemma PlausibleLength(secret: string)
    requires Plausible(secret)
    ensures |secret| == 2 * SESSION_TOKEN_BYTES
  {
    AsciiBytes(secret);
  }

  predicate IsHexChar(c: char) {
    '0' <= c <= '9' || 'a' <= c <= 'f' || 'A' <= c <= 'F'
  }

  /** A token is plausible iff it is 64 hexadecimal digits. */
  lemma PlausibleIff(secret: string)
    ensures Plausible(secret) <==> |secret| == 64 && forall i | 0 <= i < |secret| :: IsHexChar(secret[i])
  {
    AsciiBytes(secret);
  }

  // ----- printing -----

  function SecureAttribute(secure: bool): string {
    if secure then "; Secure" else ""
  }

  function SessionCookie(secret: string, secure: bool): string {
    SESSION_COOKIE_NAME + "=" + secret + "; Path=/; HttpOnly" + SecureAttribute(secure)
    + "; SameSite=Strict; Max-Age=" + Decimal(SESSION_TTL_SECS)
  }

  function ExpiredSessionCookie(secure: bool): string {
    SESSION_COOKIE_NAME + "=; Path=/; HttpOnly" + SecureAttribute(secure) + "; SameSite=Strict; Max-Age=0"
  }

  // ----- parsing -----

  /** `str::split` by one character. */
  function Split(s: string, separator: char): (parts: seq<string>)
    ensures |parts| >= 1
  {
    if s == [] then [""]
    else
      var rest := Split(s[1..], separator);
      if s[0] == separator then [""] + rest else [[s[0]] + rest[0]] + rest[1..]
  }

  /** `str::split_once` */
  function SplitOnce(s: string, separator: char): (r: Option<(string, string)>)
    ensures r.Some? ==> |s| == |r.value.0| + 1 + |r.value.1|
  {
    if s == [] then None
    else if s[0] == separator then Some(("", s[1..]))
    else match SplitOnce(s[1..], separator)
      case None => None
      case Some(pair) => Some(([s[0]] + pair.0, pair.1))
  }

  /** The session token in one segment of a cookie header. */
  function TokenIn(segment: string): Option<string> {
    match SplitOnce(Trim(segment), '=')
    case Some(pair) => if pair.0 == SESSION_COOKIE_NAME && Plausible(pair.1) then Some(pair.1) else None
    case None => None
  }

  function FirstToken(segments: seq<string>): Option<string> {
    if segments == [] then None
    else if TokenIn(segments[0]).Some? then TokenIn(segments[0])
    else FirstToken(segments[1..])
  }

  /** `extract_session_cookie` */
  function ExtractSessionCookie(header: string): Option<string> {
    FirstToken(Split(header, ';'))
  }

  // ----- what is printed is found -----

  lemma {:induction false} SplitJoined(a: string, b: string, separator: char)
    ensures Split(a + [separator] + b, separator) == Split(a, separator) + Split(b, separator)
  {
    if a == [] {
      assert (a + [separator] + b)[1..] == b;
    } else {
      assert (a + [separator] + b)[1..] == a[1..] + [separator] + b;
      SplitJoined(a[1..], b, separator);
    }
  }

  lemma {:induction false} SplitUnseparated(s: string, separator: char)
    requires separator !in s
    ensures Split(s, separator) == [s]
  {
    if s == [] {
    } else {
      SplitUnseparated(s[1..], separator);
      assert s == [s[0]] + s[1..];
    }
  }

  lemma {:induction false} FirstTokenOfTwo(xs: seq<string>, ys: seq<string>)
    ensures FirstToken(xs + ys) == if FirstToken(xs).Some? then FirstToken(xs) else FirstToken(ys)
  {
    if xs == [] {
      assert xs + ys == ys;
    } else {
      assert (xs + ys)[1..] == xs[1..] + ys;
      FirstTokenOfTwo(xs[1..], ys);
    }
  }

  /** Headers joined by a semicolon are read left to right. */
  lemma ExtractJoined(a: string, b: string)
    ensures ExtractSessionCookie(a + ";" + b)
            == if ExtractSessionCookie(a).Some? then ExtractSessionCookie(a) else ExtractSessionCookie(b)
  {
    SplitJoined(a, b, ';');
    FirstTokenOfTwo(Split(a, ';'), Split(b, ';'));
  }

  /** Whatever is taken for a token was in the header, under the cookie's name, and is plausible. */
  lemma ExtractedWasThere(header: string) returns (before: string, after: string)
    requires ExtractSessionCookie(header).Some?
    ensures var token := ExtractSessionCookie(header).value;
            header == before + SESSION_COOKIE_NAME + "=" + token + after && Plausible(token)
  {
    hide Plausible, TokenIn, Split;
    var parts := Split(header, ';');
    var i := TokenAmong(parts);
    var segment := parts[i];
    var x, y := PartOf(header, ';', i);
    var p, q := TokenInPart(segment);
    before, after := x + p, q + y;
    assert header == before + SESSION_COOKIE_NAME + "=" + TokenIn(segment).value + after;
  }

  lemma {:induction false} TokenAmong(parts: seq<string>) returns (i: nat)
    requires FirstToken(parts).Some?
    ensures i < |parts| && TokenIn(parts[i]) == FirstToken(parts)
  {
    hide TokenIn;
    if TokenIn(parts[0]).Some? {
      i := 0;
    } else {
      i := TokenAmong(parts[1..]);
      i := i + 1;
    }
  }

  lemma {:induction false} PartOf(s: string, separator: char, i: nat) returns (before: string, after: string)
    requires i < |Split(s, separator)|
    ensures s == before + Split(s, separator)[i] + after
  {
    if s == [] {
      before, after := "", "";
    } else {
      var rest := Split(s[1..], separator);
      assert s == [s[0]] + s[1..];
      if s[0] == separator {
        if i == 0 {
          before, after := "", s;
        } else {
          before, after := PartOf(s[1..], separator, i - 1);
          before := [s[0]] + before;
        }
      } else if i == 0 {
        before, after := PartAtStart(s, separator);
      } else {
        before, after := PartOf(s[1..], separator, i);
        before := [s[0]] + before;
      }
    }
  }

  lemma {:induction false} PartAtStart(s: string, separator: char) returns (before: string, after: string)
    ensures before == "" && s == Split(s, separator)[0] + after
  {
    before := "";
    if s == [] {
      after := "";
    } else if s[0] == separator {
      after := s;
    } else {
      var b, a := PartAtStart(s[1..], separator);
      after := a;
      assert s == [s[0]] + s[1..];
    }
  }

  lemma {:induction false} SplitOnceRejoined(s: string, separator: char)
    requires SplitOnce(s, separator).Some?
    ensures var (a, b) := SplitOnce(s, separator).value; s == a + [separator] + b
  {
    if s[0] == separator {
      assert s == [s[0]] + s[1..];
    } else {
      SplitOnceRejoined(s[1..], separator);
      assert s == [s[0]] + s[1..];
    }
  }

  lemma TokenInPart(segment: string) returns (before: string, after: string)
    requires TokenIn(segment).Some?
    ensures segment == before + SESSION_COOKIE_NAME + "=" + TokenIn(segment).value + after
    ensures Plausible(TokenIn(segment).value)
  {
    hide Plausible, Trim, SplitOnce;
    before, after := TrimSplits(segment);
    SplitOnceRejoined(Trim(segment), '=');
  }

  lemma {:induction false} SplitOnceJoined(name: string, value: string, separator: char)
    requires separator !in name
    ensures SplitOnce(name + [separator] + value, separator) == Some((name, value))
  {
    var s := name + [separator] + value;
    if name == [] {
      assert s[1..] == value;
    } else {
      assert s[1..] == name[1..] + [separator] + value;
      SplitOnceJoined(name[1..], value, separator);
      assert name == [name[0]] + name[1..];
    }
  }

  lemma {:induction false} PaddingTrimmed(pad: string, s: string)
    requires forall i | 0 <= i < |pad| :: IsWhitespace(pad[i])
    requires s != [] && !IsWhitespace(s[0]) && !IsWhitespace(s[|s| - 1])
    ensures Trim(pad + s) == s
  {
    if pad == [] {
      assert pad + s == s;
    } else {
      assert (pad + s)[1..] == pad[1..] + s;
      PaddingTrimmed(pad[1..], s);
    }
  }

  lemma TokenChars(bytes: seq<byte>)
    ensures forall i | 0 <= i < |Hex(bytes)| ::
      Hex(bytes)[i] != ';' && Hex(bytes)[i] != '=' && !IsWhitespace(Hex(bytes)[i])
  {
    HexRoundTrip(bytes);
    hide Hex;
  }

  lemma NoSemicolon(pad: string, name: string, token: string)
    requires forall i | 0 <= i < |pad| :: pad[i] != ';'
    requires forall i | 0 <= i < |name| :: name[i] != ';'
    requires forall i | 0 <= i < |token| :: token[i] != ';'
    ensures ';' !in pad + name + "=" + token
  {
  }

  lemma PairTrimmed(pad: string, token: string)
    requires token != [] && !IsWhitespace(token[|token| - 1])
    requires forall i | 0 <= i < |pad| :: IsWhitespace(pad[i])
    ensures Trim(pad + SESSION_COOKIE_NAME + "=" + token) == SESSION_COOKIE_NAME + "=" + token
  {
    hide IsWhitespace;
    var pair := SESSION_COOKIE_NAME + "=" + token;
    assert pad + SESSION_COOKIE_NAME + "=" + token == pad + pair;
    assert pair[|pair| - 1] == token[|token| - 1];
    assert pair[0] == 'm';
    assert !IsWhitespace('m') by { PlainLetter(); }
    PaddingTrimmed(pad, pair);
  }

  lemma PlainLetter()
    ensures !IsWhitespace('m')
  {
  }

  lemma PairHoldsToken(segment: string, token: string)
    requires Trim(segment) == SESSION_COOKIE_NAME + "=" + token && Plausible(token)
    ensures TokenIn(segment) == Some(token)
  {
    SplitOnceJoined(SESSION_COOKIE_NAME, token, '=');
    hide Plausible, Trim, SplitOnce;
  }

  /** The pair `mythenheim_session=token`, after any white space, is recognised as that token. */
  lemma PairIsFound(pad: string, bytes: seq<byte>)
    requires |bytes| == SESSION_TOKEN_BYTES
    requires forall i | 0 <= i < |pad| :: IsWhitespace(pad[i])
    ensures ExtractSessionCookie(pad + SESSION_COOKIE_NAME + "=" + Hex(bytes)) == Some(Hex(bytes))
  {
    hide Hex, Plausible, Trim, Split, TokenIn, IsHexByte;
    var token := Hex(bytes);
    var segment := pad + SESSION_COOKIE_NAME + "=" + token;
    HexRoundTrip(bytes);
    TokenChars(bytes);
    TokensArePlausible(bytes);
    NoSemicolon(pad, SESSION_COOKIE_NAME, token);
    SplitUnseparated(segment, ';');
    PairTrimmed(pad, token);
    PairHoldsToken(segment, token);
  }

  lemma CookieParts(secret: string, secure: bool)
    ensures SessionCookie(secret, secure)
            == SESSION_COOKIE_NAME + "=" + secret + ";"
               + (" Path=/; HttpOnly" + SecureAttribute(secure) + "; SameSite=Strict; Max-Age="
                  + Decimal(SESSION_TTL_SECS))
  {
    hide Decimal, SecureAttribute;
    assert "; Path=/; HttpOnly" == ";" + " Path=/; HttpOnly";
  }

  lemma TwoWeeks()
    ensures Decimal(SESSION_TTL_SECS) == "1209600"
  {
    assert Decimal(1) == "1" && Decimal(12) == "12" && Decimal(120) == "120" && Decimal(1209) == "1209";
    assert Decimal(12096) == "12096" && Decimal(120960) == "120960";
  }

  lemma SplitFirst(part: string, rest: string)
    requires ';' !in part
    ensures Split(part + ";" + rest, ';') == [part] + Split(rest, ';')
  {
    hide Split;
    SplitJoined(part, rest, ';');
    SplitUnseparated(part, ';');
  }

  /** What follows the token in the cookie. */
  function Attributes(secure: bool): string {
    " Path=/" + ";" + (" HttpOnly" + ";" + ((if secure then " Secure" + ";" else "")
                                           + (" SameSite=Strict" + ";" + " Max-Age=1209600")))
  }

  lemma Associative(a: string, b: string, c: string)
    ensures a + b + c == a + (b + c)
  {
  }

  lemma PathPart(rest: string)
    ensures " Path=/; HttpOnly" + (";" + rest) == " Path=/" + ";" + (" HttpOnly" + ";" + rest)
  {
    assert " Path=/; HttpOnly" == " Path=/" + ";" + " HttpOnly";
    Associative(" Path=/" + ";", " HttpOnly", ";" + rest);
    Associative(" HttpOnly", ";", rest);
  }

  lemma SecurePart(rest: string)
    ensures "; Secure" + (";" + rest) == ";" + (" Secure" + ";" + rest)
  {
    assert "; Secure" == ";" + " Secure";
    Associative(";", " Secure", ";" + rest);
    Associative(" Secure", ";", rest);
  }

  lemma LastPart()
    ensures "; SameSite=Strict; Max-Age=" + "1209600" == ";" + (" SameSite=Strict" + ";" + " Max-Age=1209600")
  {
    assert "; SameSite=Strict; Max-Age=" == ";" + (" SameSite=Strict" + ";" + " Max-Age=");
    assert " Max-Age=" + "1209600" == " Max-Age=1209600";
    Associative(";", " SameSite=Strict" + ";" + " Max-Age=", "1209600");
    Associative(" SameSite=Strict" + ";", " Max-Age=", "1209600");
  }

  lemma AttributesPrinted(secure: bool, last: string, printed: string)
    requires last == " SameSite=Strict" + ";" + " Max-Age=1209600"
    requires printed == ";" + last
    ensures " Path=/; HttpOnly" + SecureAttribute(secure) + printed == Attributes(secure)
  {
    var rest := (if secure then " Secure" + ";" else "") + last;
    Associative(" Path=/; HttpOnly", SecureAttribute(secure), printed);
    if secure {
      SecurePart(last);
    } else {
      assert "" + printed == printed && "" + last == last;
    }
    PathPart(rest);
  }

  lemma CookieIsPairAndAttributes(secret: string, secure: bool)
    ensures SessionCookie(secret, secure) == SESSION_COOKIE_NAME + "=" + secret + ";" + Attributes(secure)
  {
    hide Decimal, SessionCookie, SecureAttribute, Attributes;
    TwoWeeks();
    CookieParts(secret, secure);
    LastPart();
    var last := " SameSite=Strict" + ";" + " Max-Age=1209600";
    AttributesPrinted(secure, last, ";" + last);
    Associative(" Path=/; HttpOnly" + SecureAttribute(secure), "; SameSite=Strict; Max-Age=", "1209600");
  }

  lemma SplitAttributes(secure: bool)
    ensures Split(Attributes(secure), ';')
            == [" Path=/", " HttpOnly"] + (if secure then [" Secure"] else [])
               + [" SameSite=Strict", " Max-Age=1209600"]
  {
    hide Split;
    var last := " SameSite=Strict" + ";" + " Max-Age=1209600";
    SplitUnseparated(" Max-Age=1209600", ';');
    SplitFirst(" SameSite=Strict", " Max-Age=1209600");
    var middle := (if secure then " Secure" + ";" else "") + last;
    if secure {
      SplitFirst(" Secure", last);
    } else {
      assert middle == last;
    }
    SplitFirst(" HttpOnly", middle);
    SplitFirst(" Path=/", " HttpOnly" + ";" + middle);
  }

  /** The cookie set holds, besides the token, exactly these attributes: out of reach of scripts, for requests of the
      same site only, over secure connections if so configured, and for two weeks. */
  lemma CookieAttributes(bytes: seq<byte>, secure: bool)
    ensures Split(SessionCookie(Hex(bytes), secure), ';')
            == [SESSION_COOKIE_NAME + "=" + Hex(bytes), " Path=/", " HttpOnly"]
               + (if secure then [" Secure"] else []) + [" SameSite=Strict", " Max-Age=1209600"]
  {
    hide Hex, Split, Attributes, SessionCookie;
    var first := SESSION_COOKIE_NAME + "=" + Hex(bytes);
    CookieIsPairAndAttributes(Hex(bytes), secure);
    TokenChars(bytes);
    NoSemicolon("", SESSION_COOKIE_NAME, Hex(bytes));
    assert "" + SESSION_COOKIE_NAME == SESSION_COOKIE_NAME;
    SplitFirst(first, Attributes(secure));
    SplitAttributes(secure);
  }

  /** The cookie that is set is read back as the same token. */
  lemma CookieRoundTrip(bytes: seq<byte>, secure: bool)
    requires |bytes| == SESSION_TOKEN_BYTES
    ensures ExtractSessionCookie(SessionCookie(Hex(bytes), secure)) == Some(Hex(bytes))
  {
    hide Hex, ExtractSessionCookie, SessionCookie;
    PairIsFound("", bytes);
    assert "" + SESSION_COOKIE_NAME == SESSION_COOKIE_NAME;
    CookieParts(Hex(bytes), secure);
    ExtractJoined(SESSION_COOKIE_NAME + "=" + Hex(bytes),
                  " Path=/; HttpOnly" + SecureAttribute(secure) + "; SameSite=Strict; Max-Age="
                  + Decimal(SESSION_TTL_SECS));
  }

  /** Among other cookies the token is found, whatever follows it, unless something before it already was one. */
  lemma CookieFoundAmongOthers(before: string, pad: string, bytes: seq<byte>, after: string)
    requires |bytes| == SESSION_TOKEN_BYTES && ExtractSessionCookie(before) == None
    requires forall i | 0 <= i < |pad| :: IsWhitespace(pad[i])
    ensures ExtractSessionCookie(before + ";" + (pad + SESSION_COOKIE_NAME + "=" + Hex(bytes))) == Some(Hex(bytes))
    ensures ExtractSessionCookie(before + ";" + (pad + SESSION_COOKIE_NAME + "=" + Hex(bytes) + ";" + after))
            == Some(Hex(bytes))
  {
    hide Hex, ExtractSessionCookie;
    var pair := pad + SESSION_COOKIE_NAME + "=" + Hex(bytes);
    PairIsFound(pad, bytes);
    ExtractJoined(before, pair);
    ExtractJoined(pair, after);
    ExtractJoined(before, pair + ";" + after);
  }

  // ----- short headers hold no token -----

  lemma {:induction false} TrimStartShortens(s: string)
    ensures |TrimStart(s)| <= |s|
  {
    if s != [] && IsWhitespace(s[0]) {
      TrimStartShortens(s[1..]);
    }
  }

  lemma {:induction false} TrimEndShortens(s: string)
    ensures |TrimEnd(s)| <= |s|
  {
    if s != [] && IsWhitespace(s[|s| - 1]) {
      TrimEndShortens(s[..|s| - 1]);
    }
  }

  lemma {:induction false} PartsAreShorter(s: string, separator: char)
    ensures forall part | part in Split(s, separator) :: |part| <= |s|
  {
    if s == [] {
    } else {
      PartsAreShorter(s[1..], separator);
    }
  }

  lemma {:induction false} NoTokenInShortParts(segments: seq<string>)
    requires forall x | x in segments :: |x| < |SESSION_COOKIE_NAME| + 1 + 2 * SESSION_TOKEN_BYTES
    ensures FirstToken(segments) == None
  {
    if segments == [] {
    } else {
      hide Plausible;
      var segment := segments[0];
      assert segment in segments;
      TrimStartShortens(segment);
      TrimEndShortens(TrimStart(segment));
      if TokenIn(segment).Some? {
        PlausibleLength(TokenIn(segment).value);
      }
      NoTokenInShortParts(segments[1..]);
    }
  }

  /** A header shorter than `name=token` holds no token. */
  lemma ShortHeaderHasNone(header: string)
    requires |header| < |SESSION_COOKIE_NAME| + 1 + 2 * SESSION_TOKEN_BYTES
    ensures ExtractSessionCookie(header) == None
  {
    PartsAreShorter(header, ';');
    NoTokenInShortParts(Split(header, ';'));
  }

  /** The cookie that clears the session is never taken for one, alone or after other cookies. */
  lemma ExpiredCookieHasNone(secure: bool, before: string)
    ensures ExtractSessionCookie(ExpiredSessionCookie(secure)) == None
    ensures ExtractSessionCookie(before + ";" + ExpiredSessionCookie(secure)) == ExtractSessionCookie(before)
  {
    hide ExtractSessionCookie;
    ShortHeaderHasNone(ExpiredSessionCookie(secure));
    ExtractJoined(before, ExpiredSessionCookie(secure));
  }
}
