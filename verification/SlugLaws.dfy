/** What a slug is made of: three laws that together determine it. */
module SlugLaws {
  import opened Text
  import opened Slugs

  predicate IsAlnum(c: char) {
    '0' <= c <= '9' || 'A' <= c <= 'Z' || 'a' <= c <= 'z'
  }

  predicate HasAlnum(s: string) {
    exists c :: c in s && IsAlnum(c)
  }

  ghost predicate NoWordBytes(bytes: seq<byte>) {
    forall i | 0 <= i < |bytes| :: !IsWordByte(bytes[i])
  }

  /** Other characters are no part of a word, whatever bytes encode them. */
  lemma CharBytes(c: char)
    ensures IsAlnum(c) ==> Utf8(c) == [c as int] && IsWordByte(c as int) && WordChar(c as int) == LowerChar(c)
    ensures !IsAlnum(c) ==> NoWordBytes(Utf8(c))
  {
    var bytes := Utf8(c);
    forall i | 0 <= i < |bytes| && !IsAlnum(c) ensures !IsWordByte(bytes[i]) {
      assert bytes[i] in bytes;
    }
  }

  lemma {:induction false} NoWordsAfter(xs: seq<byte>, rest: seq<byte>)
    requires NoWordBytes(rest)
    ensures Words(xs + rest) == Words(xs)
  {
    if rest == [] {
      assert xs + rest == xs;
    } else {
      assert (xs + rest)[..|xs + rest| - 1] == xs + rest[..|rest| - 1];
      NoWordsAfter(xs, rest[..|rest| - 1]);
    }
  }

  /** Words do not reach over a stretch without word bytes. */
  lemma {:induction false} WordsApart(xs: seq<byte>, gap: seq<byte>, ys: seq<byte>)
    requires NoWordBytes(gap) && gap != []
    ensures Words(xs + gap + ys) == Words(xs) + Words(ys)
  {
    hide WordChar;
    if ys == [] {
      assert xs + gap + ys == xs + gap;
      NoWordsAfter(xs, gap);
    } else {
      var all, before := xs + gap + ys, ys[..|ys| - 1];
      assert all[..|all| - 1] == xs + gap + before;
      WordsApart(xs, gap, before);
      WordsAreWords(before);
      var last := (xs + gap + before)[|xs + gap + before| - 1];
      if before == [] {
        assert last == gap[|gap| - 1];
      } else {
        assert last == before[|before| - 1];
      }
    }
  }

  lemma {:induction false} JoinTwo(xs: seq<string>, ys: seq<string>)
    requires xs != [] && ys != []
    ensures Join(xs + ys) == Join(xs) + "-" + Join(ys)
  {
    assert (xs + ys)[..|xs + ys| - 1] == xs + ys[..|ys| - 1];
    if |ys| == 1 {
      assert xs + ys[..0] == xs;
    } else {
      JoinTwo(xs, ys[..|ys| - 1]);
    }
  }

  lemma {:induction false} WordsIffAlnum(s: string)
    ensures Words(Bytes(s)) != [] <==> HasAlnum(s)
  {
    hide IsAlnum, WordChar;
    if s == [] {
    } else {
      var before, last := s[..|s| - 1], s[|s| - 1];
      assert s == before + [last];
      WordsIffAlnum(before);
      BytesAppend(before, [last]);
      OneChar(last);
      assert HasAlnum(s) <==> HasAlnum(before) || IsAlnum(last);
      CharBytes(last);
      if IsAlnum(last) {
        assert Bytes(s)[..|Bytes(s)| - 1] == Bytes(before);
      } else {
        NoWordsAfter(Bytes(before), Utf8(last));
      }
    }
  }

  lemma OneChar(c: char)
    ensures Bytes([c]) == Utf8(c)
  {
    assert [c][1..] == [];
    assert Bytes([]) == [];
  }

  /** A text without letters and digits has the slug "item". */
  lemma SlugOfNothing(s: string)
    requires !HasAlnum(s)
    ensures Slug(s) == "item"
  {
    hide HasAlnum;
    WordsIffAlnum(s);
  }

  /** Letters and digits alone are their own slug, in lower case. */
  lemma SlugOfWord(s: string)
    requires s != [] && forall c | c in s :: IsAlnum(c)
    ensures Slug(s) == AsciiLower(s)
  {
    OneWord(s);
  }

  lemma WordGrows(bytes: seq<byte>, b: byte, word: string)
    requires IsWordByte(b)
    requires if bytes == [] then word == "" else IsWordByte(bytes[|bytes| - 1]) && Words(bytes) == [word]
    ensures Words(bytes + [b]) == [word + [WordChar(b)]]
  {
    hide WordChar, IsWordByte;
    assert (bytes + [b])[..|bytes|] == bytes;
    if bytes == [] {
      assert Words(bytes) == [];
      assert "" + [WordChar(b)] == [WordChar(b)];
    }
  }

  lemma {:induction false} OneWord(s: string)
    requires s != [] && forall c | c in s :: IsAlnum(c)
    ensures Words(Bytes(s)) == [AsciiLower(s)] && Bytes(s) != [] && IsWordByte(Bytes(s)[|Bytes(s)| - 1])
  {
    hide IsAlnum, IsWordByte, WordChar, Words, Utf8;
    var before, last := s[..|s| - 1], s[|s| - 1];
    assert s == before + [last];
    BytesAppend(before, [last]);
    OneChar(last);
    CharBytes(last);
    LowerAppend(before, last);
    hide Bytes, AsciiLower;
    if before == [] {
      EmptyText();
    } else {
      assert forall c | c in before :: c in s;
      OneWord(before);
    }
    WordGrows(Bytes(before), last as int, AsciiLower(before));
  }

  lemma EmptyText()
    ensures Bytes("") == [] && AsciiLower("") == ""
  {
  }

  lemma {:induction false} LowerAppend(s: string, c: char)
    ensures AsciiLower(s + [c]) == AsciiLower(s) + [LowerChar(c)]
  {
    if s == [] {
      assert s + [c] == [c] && [c][1..] == [];
    } else {
      assert (s + [c])[1..] == s[1..] + [c];
      LowerAppend(s[1..], c);
    }
  }

  /** Any other character parts a text in two, whose slugs are joined by a dash; a part without letters and digits adds
      nothing. */
  lemma SlugOfTwo(a: string, c: char, b: string)
    requires !IsAlnum(c)
    ensures Slug(a + [c] + b) == if !HasAlnum(a) then Slug(b)
                                 else if !HasAlnum(b) then Slug(a)
                                 else Slug(a) + "-" + Slug(b)
  {
    hide HasAlnum, IsAlnum, Words, Join;
    CharBytes(c);
    OneChar(c);
    BytesAppend(a, [c]);
    BytesAppend(a + [c], b);
    WordsApart(Bytes(a), Utf8(c), Bytes(b));
    WordsIffAlnum(a);
    WordsIffAlnum(b);
    assert [] + Words(Bytes(b)) == Words(Bytes(b)) && Words(Bytes(a)) + [] == Words(Bytes(a));
    assert Bytes(a + [c] + b) == Bytes(a) + Utf8(c) + Bytes(b);
    if HasAlnum(a) && HasAlnum(b) {
      JoinTwo(Words(Bytes(a)), Words(Bytes(b)));
    }
  }
}
