/** Slugs: their canonical form and the search for one that is not taken. */
module Slugs {
  import opened Text

  // ----- slugify -----

  function LowerByte(b: byte): byte {
    if 65 <= b <= 90 then b + 32 else b
  }

  /** ASCII letters and digits, the bytes a slug keeps. */
  predicate IsWordByte(b: byte) {
    48 <= LowerByte(b) <= 57 || 97 <= LowerByte(b) <= 122
  }

  function WordChar(b: byte): char
    requires IsWordByte(b)
  {
    LowerByte(b) as char
  }

  /** The maximal runs of letters and digits, in lower case. */
  function Words(bytes: seq<byte>): seq<string> {
    if bytes == [] then []
    else
      var before, last := bytes[..|bytes| - 1], bytes[|bytes| - 1];
      var words := Words(before);
      if !IsWordByte(last) then words
      else if before != [] && IsWordByte(before[|before| - 1]) && words != [] then
        words[|words| - 1 := words[|words| - 1] + [WordChar(last)]]
      else words + [[WordChar(last)]]
  }

  function Join(words: seq<string>): string {
    if words == [] then ""
    else if |words| == 1 then words[0]
    else Join(words[..|words| - 1]) + "-" + words[|words| - 1]
  }

  /** The slug of a text: its words joined by dashes, or "item" when it has none. */
  function Slug(value: string): string {
    var words := Words(Bytes(value));
    if words == [] then "item" else Join(words)
  }

  predicate IsSlugChar(c: char) {
    '0' <= c <= '9' || 'a' <= c <= 'z'
  }

  /** Non-empty lower-case alphanumeric runs joined by single dashes. */
  ghost predicate IsSlug(s: string) {
    && s != [] && s[0] != '-' && s[|s| - 1] != '-'
    && (forall i | 0 <= i < |s| :: IsSlugChar(s[i]) || s[i] == '-')
    && (forall i | 0 <= i < |s| - 1 :: s[i] != '-' || s[i + 1] != '-')
  }

  ghost predicate AreWords(words: seq<string>) {
    forall i | 0 <= i < |words| :: words[i] != [] && forall c | c in words[i] :: IsSlugChar(c)
  }

  lemma {:induction false} WordsAreWords(bytes: seq<byte>)
    ensures AreWords(Words(bytes))
    ensures bytes != [] && IsWordByte(bytes[|bytes| - 1]) ==> Words(bytes) != []
  {
    if bytes == [] {
    } else {
      WordsAreWords(bytes[..|bytes| - 1]);
    }
  }

  lemma {:induction false} JoinIsSlug(words: seq<string>)
    requires AreWords(words) && words != []
    ensures IsSlug(Join(words))
  {
    var last := words[|words| - 1];
    assert forall i | 0 <= i < |last| :: last[i] in last;
    if |words| > 1 {
      JoinIsSlug(words[..|words| - 1]);
    }
  }

  lemma JoinGrows(words: seq<string>, c: char)
    ensures Join(words + [[c]]) == if words == [] then [c] else Join(words) + "-" + [c]
    ensures words != [] ==> Join(words[|words| - 1 := words[|words| - 1] + [c]]) == Join(words) + [c]
  {
    assert (words + [[c]])[..|words|] == words;
    if words != [] {
      var grown := words[|words| - 1 := words[|words| - 1] + [c]];
      assert grown[..|words| - 1] == words[..|words| - 1];
    }
  }

  /** Every slug is in canonical form. */
  lemma SlugIsCanonical(value: string)
    ensures IsSlug(Slug(value))
  {
    var words := Words(Bytes(value));
    WordsAreWords(Bytes(value));
    if words != [] {
      JoinIsSlug(words);
    }
  }

  /** A dash follows the words read so far when the last byte read was not part of one. */
  function Tail(bytes: seq<byte>): string {
    if Words(bytes) != [] && bytes != [] && !IsWordByte(bytes[|bytes| - 1]) then "-" else ""
  }

  /** What the loop of `slugify` has written after these bytes. */
  function Written(bytes: seq<byte>): string {
    Join(Words(bytes)) + Tail(bytes)
  }

  lemma WrittenStep(bytes: seq<byte>, b: byte)
    ensures IsWordByte(b) ==> Written(bytes + [b]) == Written(bytes) + [WordChar(b)] && Tail(bytes + [b]) == ""
    ensures !IsWordByte(b) ==> Written(bytes + [b]) == Join(Words(bytes)) + Tail(bytes + [b])
    ensures !IsWordByte(b) ==> Tail(bytes + [b]) == if Words(bytes) != [] then "-" else ""
    ensures IsWordByte(b) || Words(bytes) != [] ==> Words(bytes + [b]) != []
  {
    hide Join;
    assert (bytes + [b])[..|bytes|] == bytes;
    WordsAreWords(bytes);
    if IsWordByte(b) {
      JoinGrows(Words(bytes), WordChar(b));
    }
    NothingJoined();
  }

  lemma JoinEndsInWord(bytes: seq<byte>)
    ensures Words(bytes) == [] <==> Join(Words(bytes)) == ""
    ensures !EndsWith(Join(Words(bytes)), "-")
  {
    WordsAreWords(bytes);
    if Words(bytes) != [] {
      JoinIsSlug(Words(bytes));
    }
  }

  /** `slugify`: one pass that keeps at most one pending dash, then drops a trailing one. */
  method Slugify(value: string) returns (slug: string)
    ensures slug == Slug(value)
  {
    slug := "";
    var previousDash := false;
    var bytes := Bytes(value);
    assert Written([]) == "" && Tail([]) == "";
    hide Join, WordChar, IsWordByte, Words, Bytes;
    assert bytes[..0] == [];
    for i := 0 to |bytes|
      invariant slug == Written(bytes[..i])
      invariant previousDash <==> Tail(bytes[..i]) == "-"
    {
      hide Written, Tail;
      WriteOne(bytes, i);
      if IsWordByte(bytes[i]) {
        slug := slug + [WordChar(bytes[i])];
        previousDash := false;
      } else if !previousDash && slug != [] {
        slug := slug + ['-'];
        previousDash := true;
      }
    }
    assert bytes[..|bytes|] == bytes;
    JoinEndsInWord(bytes);
    while EndsWith(slug, "-")
      invariant slug == Join(Words(bytes)) || slug == Join(Words(bytes)) + "-"
      decreases |slug|
    {
      slug := slug[..|slug| - 1];
    }
    if slug == [] {
      slug := "item";
    }
  }

  lemma NothingJoined()
    ensures Join([]) == ""
  {
  }

  /** One byte of the loop, in the terms the loop uses. */
  lemma WriteOne(bytes: seq<byte>, i: nat)
    requires i < |bytes|
    ensures var now, next := bytes[..i], bytes[..i + 1];
            && (IsWordByte(bytes[i]) ==> Written(next) == Written(now) + [WordChar(bytes[i])] && Tail(next) == "")
            && (!IsWordByte(bytes[i]) && Tail(now) != "-" && Written(now) != "" ==>
                  Written(next) == Written(now) + "-" && Tail(next) == "-")
            && (!IsWordByte(bytes[i]) && (Tail(now) == "-" || Written(now) == "") ==>
                  Written(next) == Written(now) && Tail(next) == Tail(now))
  {
    var now := bytes[..i];
    assert bytes[..i + 1] == now + [bytes[i]];
    WrittenStep(now, bytes[i]);
    JoinEndsInWord(now);
    assert Tail(now) == "" || Tail(now) == "-";
  }

  // ----- slugify leaves slugs alone -----

  lemma {:induction false} BytesAppend(s: string, t: string)
    ensures Bytes(s + t) == Bytes(s) + Bytes(t)
  {
    if s == [] {
      assert s + t == t;
    } else {
      assert (s + t)[1..] == s[1..] + t;
      BytesAppend(s[1..], t);
    }
  }

  /** A prefix of a slug: it may end in a dash. */
  ghost predicate IsSlugPrefix(s: string) {
    s == [] || IsSlug(s) || (s[|s| - 1] == '-' && IsSlug(s[..|s| - 1]))
  }

  lemma PrefixOfPrefix(s: string)
    requires s != [] && IsSlugPrefix(s)
    ensures IsSlugPrefix(s[..|s| - 1])
    ensures s[|s| - 1] == '-' ==> |s| > 1 && IsSlugChar(s[|s| - 2])
  {
    var before := s[..|s| - 1];
    if before != [] && s[|s| - 1] != '-' {
      assert IsSlugChar(before[|before| - 1]) || before[|before| - 1] == '-';
    }
  }

  /** Reading a prefix of a slug writes it back unchanged. */
  lemma {:induction false} PrefixIsKept(s: string)
    requires IsSlugPrefix(s)
    ensures |Bytes(s)| == |s| && (s != [] ==> Bytes(s)[|s| - 1] == s[|s| - 1] as int && Words(Bytes(s)) != [])
    ensures Written(Bytes(s)) == s
  {
    if s == [] {
    } else {
      var before, last := s[..|s| - 1], s[|s| - 1];
      assert s == before + [last];
      PrefixOfPrefix(s);
      PrefixIsKept(before);
      SlugCharsOnly(s);
      BytesAppend(before, [last]);
      assert [last][1..] == [];
      assert Bytes([last]) == [last as int];
      WrittenStep(Bytes(before), last as int);
    }
  }

  lemma SlugCharsOnly(s: string)
    requires IsSlugPrefix(s)
    ensures forall i | 0 <= i < |s| :: IsSlugChar(s[i]) || s[i] == '-'
  {
    if s != [] && !IsSlug(s) {
      var before := s[..|s| - 1];
      forall i | 0 <= i < |s| ensures IsSlugChar(s[i]) || s[i] == '-' {
        if i < |before| {
          assert before[i] == s[i];
        }
      }
    }
  }

  /** Slugs are fixed points, so `slugify` is idempotent. */
  lemma SlugFixedPoint(s: string)
    requires IsSlug(s)
    ensures Slug(s) == s
  {
    PrefixIsKept(s);
  }

  // ----- the suffix search -----

  /** The k-th name tried: the stem itself, then `stem-2`, `stem-3`, ... */
  function Candidate(stem: string, k: nat): string {
    if k <= 1 then stem else stem + "-" + Decimal(k)
  }

  lemma CandidateInjective(stem: string, j: nat, k: nat)
    requires 1 <= j && 1 <= k && Candidate(stem, j) == Candidate(stem, k)
    ensures j == k
  {
    if j > 1 && k > 1 {
      assert Candidate(stem, j)[|stem| + 1..] == Decimal(j);
      assert Candidate(stem, k)[|stem| + 1..] == Decimal(k);
      DecimalRoundTrip(j);
      DecimalRoundTrip(k);
    }
  }

  /** The first candidate from the k-th on that is not taken; it comes after at most |taken| others. */
  function FirstFree(stem: string, taken: set<string>, k: nat): (n: nat)
    requires k >= 1
    ensures k <= n <= k + |taken|
    ensures Candidate(stem, n) !in taken
    ensures forall j | k <= j < n :: Candidate(stem, j) in taken
    decreases |taken|
  {
    var c := Candidate(stem, k);
    if c !in taken then k
    else
      var n := FirstFree(stem, taken - {c}, k + 1);
      assert Candidate(stem, n) != c by {
        if Candidate(stem, n) == c {
          CandidateInjective(stem, n, k);
        }
      }
      n
  }

  lemma {:induction false} DecimalIsAlnum(n: nat)
    ensures forall c | c in Decimal(n) :: IsSlugChar(c)
  {
    if n >= 10 {
      DecimalIsAlnum(n / 10);
    }
  }

  /** The names the search tries stay in canonical form. */
  lemma CandidateIsSlug(stem: string, k: nat)
    requires IsSlug(stem)
    ensures IsSlug(Candidate(stem, k))
  {
    if k > 1 {
      DecimalRoundTrip(k);
      DecimalIsAlnum(k);
      var d := Decimal(k);
      assert forall i | 0 <= i < |d| :: d[i] in d;
    }
  }

  /** `unique_slug` */
  method UniqueSlug(value: string, index: map<string, string>) returns (slug: string)
    ensures slug == Candidate(Slug(value), FirstFree(Slug(value), index.Keys, 1))
  {
    var base := Slugify(value);
    slug := base;
    var suffix := 2;
    ghost var n := FirstFree(base, index.Keys, 1);
    while slug in index
      invariant 2 <= suffix <= n + 1 && slug == Candidate(base, suffix - 1)
      invariant forall j | 1 <= j < suffix - 1 :: Candidate(base, j) in index
      decreases n + 1 - suffix
    {
      slug := base + "-" + Decimal(suffix);
      suffix := suffix + 1;
    }
  }

  /** The composite key of the topic slug index. */
  function TopicKey(categoryId: string, slug: string): string {
    categoryId + ":" + slug
  }

  lemma TopicKeyOfCandidate(categoryId: string, base: string, k: nat)
    ensures TopicKey(categoryId, Candidate(base, k)) == Candidate(TopicKey(categoryId, base), k)
  {
    if k > 1 {
      assert TopicKey(categoryId, base + "-" + Decimal(k)) == TopicKey(categoryId, base) + "-" + Decimal(k);
    }
  }

  /** `unique_topic_slug` */
  method UniqueTopicSlug(categoryId: string, value: string, index: map<string, string>) returns (slug: string)
    ensures slug == Candidate(Slug(value), FirstFree(TopicKey(categoryId, Slug(value)), index.Keys, 1))
  {
    var base := Slugify(value);
    slug := base;
    var suffix := 2;
    ghost var stem := TopicKey(categoryId, base);
    ghost var n := FirstFree(stem, index.Keys, 1);
    while TopicKey(categoryId, slug) in index
      invariant 2 <= suffix <= n + 1 && slug == Candidate(base, suffix - 1)
      invariant TopicKey(categoryId, slug) == Candidate(stem, suffix - 1)
      invariant forall j | 1 <= j < suffix - 1 :: Candidate(stem, j) in index
      decreases n + 1 - suffix
    {
      slug := base + "-" + Decimal(suffix);
      TopicKeyOfCandidate(categoryId, base, suffix);
      suffix := suffix + 1;
    }
  }

  /** A slug holds no colon, so the composite key determines both parts. */
  lemma TopicKeyInjective(c1: string, s1: string, c2: string, s2: string)
    requires IsSlug(s1) && IsSlug(s2) && TopicKey(c1, s1) == TopicKey(c2, s2)
    ensures c1 == c2 && s1 == s2
  {
    var key := TopicKey(c1, s1);
    assert key[|c1|] == ':' && key[|c2|] == ':';
    assert forall i | |c1| < i < |key| :: key[i] == s1[i - |c1| - 1];
    assert forall i | |c2| < i < |key| :: key[i] == s2[i - |c2| - 1];
    assert |c1| == |c2|;
    assert c1 == key[..|c1|] && c2 == key[..|c2|];
    assert s1 == key[|c1| + 1..] && s2 == key[|c2| + 1..];
  }
}
