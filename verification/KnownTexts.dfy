/** What the serialisers write, character by character. */
module KnownTexts {
  import opened Wrappers
  import opened Json
  import opened JsonRoundTrip
  import opened Encodings
  import opened Cursor
  import opened CanonicalJson
  import opened Pagination
  import L = Lexicographic

  predicate IsAscii(s: string) {
    forall i :: 0 <= i < |s| ==> s[i] as int < 128
  }

  /** The code units of an ASCII string. */
  function Units(s: string): (t: Text)
    requires IsAscii(s)
    ensures |t| == |s| && forall i :: 0 <= i < |s| ==> t[i] as int == s[i] as int
  {
    seq(|s|, i requires 0 <= i < |s| => s[i] as int as Unit)
  }

  // ----- Strings: section 7 of RFC 8259 -----

  /** Seven characters are escaped by a letter of their own. */
  lemma ShortEscapesAre()
    ensures EscapedUnit(0x22) == Units("\\\"") && EscapedUnit(0x5C) == Units("\\\\")
    ensures EscapedUnit(0x08) == Units("\\b") && EscapedUnit(0x0C) == Units("\\f")
    ensures EscapedUnit(0x0A) == Units("\\n") && EscapedUnit(0x0D) == Units("\\r") && EscapedUnit(0x09) == Units("\\t")
  {
  }

  /** Other controls and lone surrogates are escaped by four lower-case hexadecimal digits. */
  lemma LongEscapesAre()
    ensures EscapedUnit(0x00) == Units("\\u0000") && EscapedUnit(0x1F) == Units("\\u001f")
    ensures EscapedUnit(0xD800) == Units("\\ud800") && EscapedUnit(0xDFFF) == Units("\\udfff")
  {
  }

  lemma OthersAreNotEscaped(u: Unit)
    requires u >= 0x20 && u != 0x22 && u != 0x5C && !(0xD800 <= u < 0xE000)
    ensures EscapedUnit(u) == [u]
  {
  }

  // ----- White space and punctuation -----

  lemma PunctuationIs()
    ensures [OPEN_BRACKET, CLOSE_BRACKET, OPEN_BRACE, CLOSE_BRACE] == Units("[]{}")
    ensures [COMMA, COLON, QUOTE, LF, SPACE] == Units(",:\"\n ")
    ensures NULL == Units("null") && TRUE == Units("true") && FALSE == Units("false")
    ensures Separator(0) == [COLON] && Separator(2) == [COLON, SPACE]
  {
  }

  /** A break between lines of a text indented by `gap`: one line feed and `gap` spaces for every level; else none. */
  lemma LineBreaks(gap: nat, depth: nat, line: Text)
    requires line == NewLine(gap, depth)
    ensures gap == 0 ==> line == []
    ensures gap > 0 ==> |line| == 1 + gap * depth && line[0] == LF
    ensures forall i :: 0 < i < |line| ==> line[i] == SPACE
  {
    if gap > 0 {
      var spaces := Spaces(gap * depth);
      assert |spaces| == gap * depth && line == [LF] + spaces;
    }
  }

  lemma OneItem(v: Json, gap: nat, depth: nat)
    ensures Stringify(Arr([v]), gap, depth)
         == [OPEN_BRACKET]
            + ((NewLine(gap, depth + 1) + (Stringify(v, gap, depth + 1) + [])) + (NewLine(gap, depth) + [CLOSE_BRACKET]))
  {
    var items := [v];
    assert items[0] == v && MoreItems(items, gap, depth + 1) == [];
    assert StringifyItems(items, gap, depth + 1) == NewLine(gap, depth + 1) + (Stringify(v, gap, depth + 1) + []);
  }

  lemma CanonOfOne()
    ensures Canon(Arr([Null])) == Arr([Null])
  {
    assert Canon(Arr([Null])).items == [Null];
  }

  /** An array of one, compact for hashing. */
  lemma CompactArrayText()
    ensures CanonicalText(Arr([Null])) == [OPEN_BRACKET] + (NULL + [CLOSE_BRACKET])
  {
    CanonOfOne();
    OneItem(Null, 0, 0);
    assert [] + (NULL + []) == NULL && [] + [CLOSE_BRACKET] == [CLOSE_BRACKET];
  }

  /** An array of one, for publishing: on lines of its own, two spaces in, and with a last line feed. */
  lemma PublishedArrayText()
    ensures StableText(Arr([Null])) == [OPEN_BRACKET, LF, SPACE, SPACE] + (NULL + [LF, CLOSE_BRACKET, LF])
  {
    CanonOfOne();
    OneItem(Null, 2, 0);
    LinesOfTwo();
    Glue([OPEN_BRACKET], [LF, SPACE, SPACE], NULL, [LF], [CLOSE_BRACKET], [LF]);
  }

  lemma Glue(a: Text, b: Text, c: Text, d: Text, e: Text, f: Text)
    ensures (a + ((b + (c + [])) + (d + e))) + f == (a + b) + (c + (d + e + f))
  {
  }

  lemma LinesOfTwo()
    ensures NewLine(2, 1) == [LF, SPACE, SPACE] && NewLine(2, 0) == [LF]
  {
  }

  predicate IsPlain(t: Text) {
    forall i :: 0 <= i < |t| ==> 0x20 <= t[i] < 0x80 && t[i] != 0x22 && t[i] != 0x5C
  }

  lemma {:induction false} PlainStaysPlain(t: Text)
    requires IsPlain(t)
    ensures Escaped(t) == t
  {
    if t != [] {
      PlainStaysPlain(t[1..]);
      assert t == [t[0]] + t[1..];
    }
  }

  lemma ProtoIs()
    ensures PROTO == Units("__proto__")
  {
  }

  // ----- Cursors -----

  function CursorText(sortValue: Text, id: Text): Text {
    [OPEN_BRACE]
    + (([QUOTE] + (Units("sortValue") + [QUOTE])) + ([COLON] + (sortValue + ([COMMA]
    + (([QUOTE] + (Units("id") + [QUOTE])) + ([COLON] + (id + [CLOSE_BRACE])))))))
  }

  lemma SortValueIs()
    ensures SORT_VALUE == Units("sortValue") && IsPlain(SORT_VALUE)
  {
  }

  lemma IdIs()
    ensures ID == Units("id") && IsPlain(ID)
  {
  }

  lemma NamesAre()
    ensures Quoted(SORT_VALUE) == [QUOTE] + (Units("sortValue") + [QUOTE])
    ensures Quoted(ID) == [QUOTE] + (Units("id") + [QUOTE])
  {
    SortValueIs();
    IdIs();
    PlainStaysPlain(SORT_VALUE);
    PlainStaysPlain(ID);
  }

  lemma TwoMembers(k: Text, v: Json, l: Text, w: Json)
    ensures Stringify(Obj([Member(k, v), Member(l, w)]), 0, 0)
         == [OPEN_BRACE]
            + (Quoted(k) + ([COLON] + (Stringify(v, 0, 1) + ([COMMA]
            + (Quoted(l) + ([COLON] + (Stringify(w, 0, 1) + [CLOSE_BRACE])))))))
  {
    var last := [Member(l, w)];
    var lastText := Quoted(l) + ([COLON] + Stringify(w, 0, 1));
    assert StringifyMembers(last, 0, 1) == lastText by {
      assert Stringify(w, 0, 1) + [] == Stringify(w, 0, 1);
      assert [] + lastText == lastText;
    }
    var members := [Member(k, v), Member(l, w)];
    assert members[1..] == last;
    var text := Quoted(k) + ([COLON] + (Stringify(v, 0, 1) + ([COMMA] + lastText)));
    assert StringifyMembers(members, 0, 1) == text by {
      assert [] + text == text;
    }
    assert [] + [CLOSE_BRACE] == [CLOSE_BRACE];
    CloseLast(Quoted(k), [COLON], Stringify(v, 0, 1), [COMMA], Quoted(l), Stringify(w, 0, 1), [CLOSE_BRACE]);
  }

  lemma CloseLast(a: Text, colon: Text, b: Text, comma: Text, c: Text, d: Text, close: Text)
    ensures (a + (colon + (b + (comma + (c + (colon + d)))))) + close == a + (colon + (b + (comma + (c + (colon + (d + close))))))
  {
    Assoc(a, colon + (b + (comma + (c + (colon + d)))), close);
    Assoc(colon, b + (comma + (c + (colon + d))), close);
    Assoc(b, comma + (c + (colon + d)), close);
    Assoc(comma, c + (colon + d), close);
    Assoc(c, colon + d, close);
    Assoc(colon, d, close);
  }

  /** The JSON inside a cursor, as it is written: the two names in this order, and nothing else. */
  lemma CursorTextIs(c: KeysetCursor)
    ensures Utf8Decode(Base64UrlDecode(EncodeCursor(c)))
         == CursorText(if c.sortValue.Some? then Quoted(c.sortValue.value) else Units("null"), Quoted(c.id))
  {
    var value := if c.sortValue.Some? then Str(c.sortValue.value) else Null;
    var text := Stringify(CursorJson(c), 0, 0);
    NamesAre();
    PunctuationIs();
    TwoMembers(SORT_VALUE, value, ID, Str(c.id));
    CursorDecodesToText(c, text);
  }

  lemma CursorDecodesToText(c: KeysetCursor, text: Text)
    requires text == Stringify(CursorJson(c), 0, 0)
    ensures Utf8Decode(Base64UrlDecode(EncodeCursor(c))) == text
  {
    CursorJsonIsHoldable(c);
    StringifyIsWellFormed(CursorJson(c), 0, 0);
    Base64UrlRoundTrip(Utf8Encode(text));
    Utf8RoundTrip(text);
  }

  // ----- Encodings -----

  /** Test vectors of section 10 of RFC 4648, without padding, and the two letters of the URL-safe alphabet. */
  lemma Base64UrlVectors()
    ensures Base64UrlEncode([]) == []
    ensures Base64UrlEncode([0x66]) == Units("Zg") && Base64UrlEncode([0x66, 0x6F]) == Units("Zm8")
    ensures Base64UrlEncode([0x66, 0x6F, 0x6F]) == Units("Zm9v")
    ensures Base64UrlEncode([0xFB, 0xFF]) == Units("-_8")
  {
    assert [0x66 as Byte, 0x6F, 0x6F][3..] == [];
  }

  /** One code unit or pair of each length in UTF-8: a dollar sign, a pound sign, a euro sign and an emoji. */
  lemma Utf8Vectors()
    ensures EncodeCodePoint(0x24) == [0x24] && EncodeCodePoint(0xA3) == [0xC2, 0xA3]
    ensures EncodeCodePoint(0x20AC) == [0xE2, 0x82, 0xAC]
    ensures EncodeCodePoint(CodePointOf(0xD83D, 0xDE00)) == [0xF0, 0x9F, 0x98, 0x80]
  {
  }

  // ----- The order of pages -----

  /** Later sort values first, rows without one last, larger ids first among equals. */
  lemma PageOrderIs()
    ensures var a, b, c, d :=
              KeysetCursor(Some(Units("2024-02")), Units("1")), KeysetCursor(Some(Units("2024-01")), Units("2")),
              KeysetCursor(Some(Units("2024-01")), Units("1")), KeysetCursor(None, Units("9"));
            Precedes(a, b) && Precedes(b, c) && Precedes(c, d) && Precedes(d, KeysetCursor(None, Units("8")))
  {
    Later("2024-01", "2024-02", 6);
    Later("1", "2", 0);
    Later("8", "9", 0);
  }

  lemma Later(s: string, t: string, k: nat)
    requires IsAscii(s) && IsAscii(t) && k < |s| && k < |t| && s[..k] == t[..k] && s[k] < t[k]
    ensures LexLess(Units(s), Units(t))
  {
    assert Units(s)[..k] == Units(t)[..k] by {
      forall i | 0 <= i < k ensures Units(s)[i] == Units(t)[i] {
        assert s[..k][i] == t[..k][i];
      }
    }
    L.LessMeans(CodeUnit, Units(s), Units(t));
    assert L.DiffersAt(CodeUnit, Units(s), Units(t), k);
  }
}
