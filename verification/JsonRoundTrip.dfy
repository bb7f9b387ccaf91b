/** `JSON.parse` reads back what `JSON.stringify` wrote, with or without indentation. */
module JsonRoundTrip {
  import opened Wrappers
  import opened Json

  // ----- Strings -----

  lemma HexRoundTrip(n: int)
    requires 0 <= n < 16
    ensures HexValue(HexDigit(n)) == Some(n)
  {
  }

  lemma HexDecomposition(n: int)
    requires 0 <= n < 0x1_0000
    ensures n == n / 4096 * 4096 + n / 256 % 16 * 256 + n / 16 % 16 * 16 + n % 16
  {
    var a, b := n / 16, n / 256;
    assert a / 16 == b && b / 16 == n / 4096;
    assert n == a * 16 + n % 16 && a == b * 16 + a % 16 && b == b / 16 * 16 + b % 16;
  }

  lemma FourHexRoundTrip(u: Unit, t: Text)
    ensures |UnicodeEscape(u)| == 6
    ensures FourHex((UnicodeEscape(u) + t)[2..]) == Some(u)
  {
    var n := u as int;
    HexRoundTrip(n / 4096);
    HexRoundTrip(n / 256 % 16);
    HexRoundTrip(n / 16 % 16);
    HexRoundTrip(n % 16);
    HexDecomposition(n);
    var hex := (UnicodeEscape(u) + t)[2..];
    assert hex[0] == HexDigit(n / 4096) && hex[1] == HexDigit(n / 256 % 16);
    assert hex[2] == HexDigit(n / 16 % 16) && hex[3] == HexDigit(n % 16);
  }

  lemma ShortEscapeRoundTrip(letter: Unit, u: Unit, t: Text)
    requires letter != 0x75 && ShortEscape(letter) == Some(u)
    ensures ParseChars([BACKSLASH, letter] + t) == Prepend(u, ParseChars(t))
  {
    var text := [BACKSLASH, letter] + t;
    assert text[2..] == t;
  }

  lemma UnicodeEscapeRoundTrip(u: Unit, t: Text)
    ensures ParseChars(UnicodeEscape(u) + t) == Prepend(u, ParseChars(t))
  {
    var text := UnicodeEscape(u) + t;
    FourHexRoundTrip(u, t);
    assert text[0] == BACKSLASH && text[1] == 0x75 && text[6..] == t;
  }

  lemma ShortEscapes(u: Unit)
    ensures var e := EscapedUnit(u);
            || (e == [u] && u >= SPACE && u != QUOTE && u != BACKSLASH)
            || e == UnicodeEscape(u)
            || (|e| == 2 && e[0] == BACKSLASH && e[1] != 0x75 && ShortEscape(e[1]) == Some(u))
  {
  }

  /** Reading one escaped unit yields the unit, and goes on behind it. */
  lemma UnitRoundTrip(u: Unit, t: Text)
    ensures ParseChars(EscapedUnit(u) + t) == Prepend(u, ParseChars(t))
  {
    var e := EscapedUnit(u);
    ShortEscapes(u);
    if e == [u] {
      PlainUnit(u, t);
    } else if e == UnicodeEscape(u) {
      UnicodeEscapeRoundTrip(u, t);
    } else {
      assert e == [BACKSLASH, e[1]];
      ShortEscapeRoundTrip(e[1], u, t);
    }
  }

  lemma PlainUnit(u: Unit, t: Text)
    requires u >= SPACE && u != QUOTE && u != BACKSLASH
    ensures ParseChars([u] + t) == Prepend(u, ParseChars(t))
  {
    assert ([u] + t)[1..] == t;
  }

  lemma PairRoundTrip(high: Unit, low: Unit, t: Text)
    requires IsHigh(high) && IsLow(low)
    ensures ParseChars([high, low] + t) == Prepend(high, Prepend(low, ParseChars(t)))
  {
    assert [high, low] + t == [high] + ([low] + t);
    PlainUnit(low, t);
    PlainUnit(high, [low] + t);
  }

  lemma Assoc<T>(a: seq<T>, b: seq<T>, c: seq<T>)
    ensures (a + b) + c == a + (b + c)
  {
  }

  lemma EscapedPair(s: Text, tail: Text)
    requires PairAhead(s)
    ensures Escaped(s) + tail == [s[0], s[1]] + (Escaped(s[2..]) + tail)
  {
    assert s[..2] == [s[0], s[1]];
    Assoc(s[..2], Escaped(s[2..]), tail);
  }

  lemma EscapedSingle(s: Text, tail: Text)
    requires s != [] && !PairAhead(s)
    ensures Escaped(s) + tail == EscapedUnit(s[0]) + (Escaped(s[1..]) + tail)
  {
    Assoc(EscapedUnit(s[0]), Escaped(s[1..]), tail);
  }

  /** A literal behind its opening quote, `tail` being the closing quote and whatever follows. */
  lemma {:induction false} CharsRoundTrip(s: Text, rest: Text)
    ensures ParseChars(Escaped(s) + ([QUOTE] + rest)) == Some((s, rest))
    decreases |s|
  {
    var tail := [QUOTE] + rest;
    if s == [] {
      assert Escaped(s) + tail == tail && tail[1..] == rest;
    } else if PairAhead(s) {
      CharsRoundTrip(s[2..], rest);
      EscapedPair(s, tail);
      PairRoundTrip(s[0], s[1], Escaped(s[2..]) + tail);
      Assoc([s[0]], [s[1]], s[2..]);
      assert s == [s[0]] + ([s[1]] + s[2..]);
    } else {
      CharsRoundTrip(s[1..], rest);
      EscapedSingle(s, tail);
      UnitRoundTrip(s[0], Escaped(s[1..]) + tail);
      assert s == [s[0]] + s[1..];
    }
  }

  /** A whole string literal, followed by anything. */
  lemma QuotedRoundTrip(s: Text, rest: Text)
    ensures Quoted(s) + rest == [QUOTE] + (Escaped(s) + ([QUOTE] + rest))
    ensures ParseChars((Quoted(s) + rest)[1..]) == Some((s, rest))
  {
    Assoc([QUOTE], Escaped(s) + [QUOTE], rest);
    Assoc(Escaped(s), [QUOTE], rest);
    assert (Quoted(s) + rest)[1..] == Escaped(s) + ([QUOTE] + rest);
    CharsRoundTrip(s, rest);
  }

  // ----- Numbers -----

  predicate EndsNumber(rest: Text) {
    rest == [] || !IsNumberUnit(rest[0])
  }

  ghost predicate AllNumberUnits(t: Text) {
    forall i :: 0 <= i < |t| ==> IsNumberUnit(t[i])
  }

  lemma {:induction false} TokenOfNumber(t: Text, rest: Text)
    requires AllNumberUnits(t) && EndsNumber(rest)
    ensures NumberToken(t + rest) == t
  {
    if t == [] {
      assert t + rest == rest;
    } else {
      assert (t + rest)[1..] == t[1..] + rest;
      TokenOfNumber(t[1..], rest);
    }
  }

  lemma {:induction false} DigitsAreUnits(t: Text)
    ensures AllNumberUnits(SkipDigits(t)) ==> AllNumberUnits(t)
  {
    if t != [] && IsDigit(t[0]) {
      DigitsAreUnits(t[1..]);
      assert t == [t[0]] + t[1..];
    }
  }

  lemma TailUnits(t: Text)
    requires t != [] && IsNumberUnit(t[0])
    ensures AllNumberUnits(t[1..]) ==> AllNumberUnits(t)
  {
    assert t == [t[0]] + t[1..];
  }

  lemma ExponentUnits(t: Text)
    requires IsExponent(t)
    ensures AllNumberUnits(t)
  {
    if t != [] {
      var digits := if |t| > 1 && (t[1] == PLUS || t[1] == MINUS) then t[2..] else t[1..];
      DigitsAreUnits(digits);
      if |t| > 1 && (t[1] == PLUS || t[1] == MINUS) {
        assert t[1..][1..] == digits;
        TailUnits(t[1..]);
      }
      TailUnits(t);
    }
  }

  /** A number consists of number units and starts with a digit or a minus sign. */
  lemma NumberUnits(t: Text)
    requires IsNumber(t)
    ensures t != [] && AllNumberUnits(t) && (IsDigit(t[0]) || t[0] == MINUS)
  {
    var unsigned := if t != [] && t[0] == MINUS then t[1..] else t;
    var afterInteger := AfterInteger(unsigned).value;
    var afterFraction := AfterFraction(afterInteger).value;
    ExponentUnits(afterFraction);
    if afterInteger != [] && afterInteger[0] == DOT {
      DigitsAreUnits(afterInteger[1..]);
      TailUnits(afterInteger);
    }
    DigitsAreUnits(unsigned);
    TailUnits(unsigned);
    if t != unsigned {
      TailUnits(t);
    }
  }

  // ----- White space and objects -----

  lemma {:induction false} SkipSpaces(n: nat, t: Text)
    requires t == [] || !IsSpace(t[0])
    ensures Skip(Spaces(n) + t) == t
  {
    if n == 0 {
      assert Spaces(n) + t == t;
    } else {
      assert (Spaces(n) + t)[1..] == Spaces(n - 1) + t;
      SkipSpaces(n - 1, t);
    }
  }

  lemma SkipNewLine(gap: nat, depth: nat, t: Text)
    requires t == [] || !IsSpace(t[0])
    ensures Skip(NewLine(gap, depth) + t) == t
  {
    if gap == 0 {
      assert NewLine(gap, depth) + t == t;
    } else {
      assert (NewLine(gap, depth) + t)[1..] == Spaces(gap * depth) + t;
      SkipSpaces(gap * depth, t);
    }
  }

  /** Defining members in enumeration order just lists them. */
  lemma {:induction false} PutAllEnumerable(members: seq<Member>)
    requires Enumerable(members)
    ensures PutAll(members) == members
  {
    if members != [] {
      var n := |members| - 1;
      PutAllEnumerable(members[..n]);
      assert members == members[..n] + [members[n]];
      assert !HasKey(members[..n], members[n].key);
      if n > 0 {
        assert MayPrecede(members[n - 1].key, members[n].key);
      }
    }
  }

  // ----- Values -----

  /** A written value is not empty and starts with neither white space nor a closing bracket. */
  lemma StringifyHead(v: Json, gap: nat, depth: nat)
    requires Holdable(v)
    ensures var t := Stringify(v, gap, depth);
            t != [] && !IsSpace(t[0]) && t[0] != CLOSE_BRACKET && t[0] != CLOSE_BRACE
  {
    if v.Num? {
      NumberUnits(v.text);
    }
  }

  lemma ScalarRoundTrip(v: Json, gap: nat, depth: nat, rest: Text)
    requires Holdable(v) && !v.Arr? && !v.Obj? && EndsNumber(rest)
    ensures ParseValue(Stringify(v, gap, depth) + rest) == Some((v, rest))
  {
    var t := Stringify(v, gap, depth);
    var text := t + rest;
    StringifyHead(v, gap, depth);
    assert text[0] == t[0] && Skip(text) == text;
    match v
    case Str(s) =>
      QuotedRoundTrip(s, rest);
    case Num(number) =>
      NumberUnits(number);
      TokenOfNumber(number, rest);
      assert text[|number|..] == rest;
    case Null =>
      assert NULL <= text && text[|t|..] == rest;
    case Bool(b) =>
      assert t <= text && text[|t|..] == rest;
    case Arr(_) =>
    case Obj(_) =>
  }

  /** A value behind white space parses as the value. */
  lemma PaddedRoundTrip(padding: Text, v: Json, gap: nat, depth: nat, rest: Text)
    requires Holdable(v) && Skip(padding + (Stringify(v, gap, depth) + rest)) == Stringify(v, gap, depth) + rest
    requires ParseValue(Stringify(v, gap, depth) + rest) == Some((v, rest))
    ensures ParseValue(padding + (Stringify(v, gap, depth) + rest)) == Some((v, rest))
  {
    StringifyHead(v, gap, depth);
    var t := Stringify(v, gap, depth) + rest;
    assert Skip(t) == t;
    SkipIsAllThatMatters(padding + t, t);
  }

  lemma SkipIsAllThatMatters(s: Text, t: Text)
    requires Skip(s) == Skip(t)
    ensures ParseValue(s) == ParseValue(t)
  {
  }

  lemma LineBreakBeforeValue(v: Json, gap: nat, depth: nat, rest: Text)
    requires Holdable(v)
    ensures Skip(NewLine(gap, depth) + (Stringify(v, gap, depth) + rest)) == Stringify(v, gap, depth) + rest
  {
    StringifyHead(v, gap, depth);
    SkipNewLine(gap, depth, Stringify(v, gap, depth) + rest);
  }

  /** What the closing of a structure looks like to the parser. */
  function Closing(gap: nat, depth: nat, close: Unit, rest: Text): Text {
    NewLine(gap, depth) + ([close] + rest)
  }

  lemma ClosingSkips(gap: nat, depth: nat, close: Unit, rest: Text)
    requires close == CLOSE_BRACKET || close == CLOSE_BRACE
    ensures EndsNumber(Closing(gap, depth, close, rest))
    ensures Skip(Closing(gap, depth, close, rest)) == [close] + rest
  {
    SkipNewLine(gap, depth, [close] + rest);
  }

  lemma CommaSkips(rest: Text)
    ensures EndsNumber([COMMA] + rest) && Skip([COMMA] + rest) == [COMMA] + rest && ([COMMA] + rest)[1..] == rest
  {
  }

  /** Between opening and closing, everything that follows moves inside. */
  lemma Bracketed(open: Unit, inner: Text, line: Text, close: Unit, rest: Text)
    ensures [open] + (inner + (line + [close])) + rest == [open] + (inner + (line + ([close] + rest)))
  {
    Assoc([open], inner + (line + [close]), rest);
    Assoc(inner, line + [close], rest);
    Assoc(line, [close], rest);
  }

  lemma ParsesAsArray(inner: Text, items: seq<Json>, rest: Text)
    requires ParseItems(inner) == Some((items, rest))
    requires var u := Skip(inner); u != [] && u[0] != CLOSE_BRACKET
    ensures ParseValue([OPEN_BRACKET] + inner) == Some((Arr(items), rest))
  {
    assert Skip([OPEN_BRACKET] + inner) == [OPEN_BRACKET] + inner && ([OPEN_BRACKET] + inner)[1..] == inner;
  }

  lemma ParsesAsObject(inner: Text, members: seq<Member>, rest: Text)
    requires ParseMembers(inner) == Some((members, rest))
    requires var u := Skip(inner); u != [] && u[0] != CLOSE_BRACE
    ensures ParseValue([OPEN_BRACE] + inner) == Some((Obj(PutAll(members)), rest))
  {
    assert Skip([OPEN_BRACE] + inner) == [OPEN_BRACE] + inner && ([OPEN_BRACE] + inner)[1..] == inner;
  }

  lemma EmptyStructures(rest: Text)
    ensures ParseValue([OPEN_BRACKET, CLOSE_BRACKET] + rest) == Some((Arr([]), rest))
    ensures ParseValue([OPEN_BRACE, CLOSE_BRACE] + rest) == Some((Obj([]), rest))
  {
    var a, o := [OPEN_BRACKET, CLOSE_BRACKET] + rest, [OPEN_BRACE, CLOSE_BRACE] + rest;
    assert Skip(a) == a && a[1..] == [CLOSE_BRACKET] + rest && a[1..][1..] == rest;
    assert Skip(o) == o && o[1..] == [CLOSE_BRACE] + rest && o[1..][1..] == rest;
    assert Skip(a[1..]) == a[1..] && Skip(o[1..]) == o[1..];
  }

  /** Reading back any value, whatever follows it, as long as that cannot be taken for more of a number. */
  lemma {:induction false} ValueRoundTrip(v: Json, gap: nat, depth: nat, rest: Text)
    requires Holdable(v) && EndsNumber(rest)
    ensures ParseValue(Stringify(v, gap, depth) + rest) == Some((v, rest))
    decreases v, 1
  {
    if v.Arr? && v.items != [] {
      ArrayRoundTrip(v, gap, depth, rest);
    } else if v.Obj? && v.members != [] {
      ObjectRoundTrip(v, gap, depth, rest);
    } else if v.Arr? || v.Obj? {
      EmptyStructures(rest);
    } else {
      ScalarRoundTrip(v, gap, depth, rest);
    }
  }

  lemma {:induction false} ArrayRoundTrip(v: Json, gap: nat, depth: nat, rest: Text)
    requires Holdable(v) && v.Arr? && v.items != []
    ensures ParseValue(Stringify(v, gap, depth) + rest) == Some((v, rest))
    decreases v, 0
  {
    var inner := StringifyItems(v.items, gap, depth + 1) + Closing(gap, depth, CLOSE_BRACKET, rest);
    ItemsRoundTrip(v.items, gap, depth, rest);
    ItemsHead(v.items, gap, depth + 1, Closing(gap, depth, CLOSE_BRACKET, rest));
    ParsesAsArray(inner, v.items, rest);
    Bracketed(OPEN_BRACKET, StringifyItems(v.items, gap, depth + 1), NewLine(gap, depth), CLOSE_BRACKET, rest);
  }

  lemma {:induction false} ObjectRoundTrip(v: Json, gap: nat, depth: nat, rest: Text)
    requires Holdable(v) && v.Obj? && v.members != []
    ensures ParseValue(Stringify(v, gap, depth) + rest) == Some((v, rest))
    decreases v, 0
  {
    var inner := StringifyMembers(v.members, gap, depth + 1) + Closing(gap, depth, CLOSE_BRACE, rest);
    MembersRoundTrip(v.members, gap, depth, rest);
    MembersHead(v.members, gap, depth + 1, Closing(gap, depth, CLOSE_BRACE, rest));
    ParsesAsObject(inner, v.members, rest);
    PutAllEnumerable(v.members);
    Bracketed(OPEN_BRACE, StringifyMembers(v.members, gap, depth + 1), NewLine(gap, depth), CLOSE_BRACE, rest);
  }

  // ----- Arrays -----

  /** The first element stands, behind its line break, at the front. */
  lemma ItemsText(items: seq<Json>, gap: nat, depth: nat, rest: Text)
    requires items != []
    ensures StringifyItems(items, gap, depth) + rest
         == NewLine(gap, depth) + (Stringify(items[0], gap, depth) + (MoreItems(items, gap, depth) + rest))
  {
    var v, more := Stringify(items[0], gap, depth), MoreItems(items, gap, depth);
    Assoc(NewLine(gap, depth), v + more, rest);
    Assoc(v, more, rest);
  }

  lemma ItemsHead(items: seq<Json>, gap: nat, depth: nat, rest: Text)
    requires items != [] && Holdable(items[0])
    ensures var t := Skip(StringifyItems(items, gap, depth) + rest); t != [] && t[0] != CLOSE_BRACKET
  {
    ItemsText(items, gap, depth, rest);
    LineBreakBeforeValue(items[0], gap, depth, MoreItems(items, gap, depth) + rest);
    StringifyHead(items[0], gap, depth);
  }

  lemma LastItem(t: Text, v: Json, after: Text, rest: Text)
    requires ParseValue(t) == Some((v, after)) && Skip(after) == [CLOSE_BRACKET] + rest
    ensures ParseItems(t) == Some(([v], rest))
  {
    assert ([CLOSE_BRACKET] + rest)[1..] == rest;
  }

  lemma AnotherItem(t: Text, v: Json, tail: Text, items: seq<Json>, rest: Text)
    requires ParseValue(t) == Some((v, [COMMA] + tail)) && ParseItems(tail) == Some((items, rest))
    ensures ParseItems(t) == Some(([v] + items, rest))
  {
    CommaSkips(tail);
  }

  /** The elements of an array, read up to its closing bracket. */
  lemma {:induction false} ItemsRoundTrip(items: seq<Json>, gap: nat, depth: nat, rest: Text)
    requires items != [] && forall i :: 0 <= i < |items| ==> Holdable(items[i])
    ensures ParseItems(StringifyItems(items, gap, depth + 1) + Closing(gap, depth, CLOSE_BRACKET, rest))
         == Some((items, rest))
    decreases items, 2
  {
    var v, close := items[0], Closing(gap, depth, CLOSE_BRACKET, rest);
    var text := StringifyItems(items, gap, depth + 1) + close;
    ClosingSkips(gap, depth, CLOSE_BRACKET, rest);
    ItemsText(items, gap, depth + 1, close);
    if |items| == 1 {
      assert MoreItems(items, gap, depth + 1) + close == close && items == [v];
      FirstItem(v, gap, depth + 1, close);
      LastItem(text, v, close, rest);
    } else {
      var tail := StringifyItems(items[1..], gap, depth + 1) + close;
      CommaSkips(tail);
      Assoc([COMMA], StringifyItems(items[1..], gap, depth + 1), close);
      FirstItem(v, gap, depth + 1, [COMMA] + tail);
      ItemsRoundTrip(items[1..], gap, depth, rest);
      AnotherItem(text, v, tail, items[1..], rest);
      assert items == [v] + items[1..];
    }
  }

  lemma {:induction false} FirstItem(v: Json, gap: nat, depth: nat, after: Text)
    requires Holdable(v) && EndsNumber(after)
    ensures ParseValue(NewLine(gap, depth) + (Stringify(v, gap, depth) + after)) == Some((v, after))
    decreases v, 2
  {
    ValueRoundTrip(v, gap, depth, after);
    LineBreakBeforeValue(v, gap, depth, after);
    PaddedRoundTrip(NewLine(gap, depth), v, gap, depth, after);
  }

  // ----- Objects -----

  /** The first name stands, behind its line break, at the front; its colon and value follow. */
  lemma MembersText(members: seq<Member>, gap: nat, depth: nat, rest: Text)
    requires members != []
    ensures StringifyMembers(members, gap, depth) + rest
         == NewLine(gap, depth)
            + (Quoted(members[0].key)
               + (Separator(gap) + (Stringify(members[0].value, gap, depth) + (MoreMembers(members, gap, depth) + rest))))
  {
    var value, more := Stringify(members[0].value, gap, depth), MoreMembers(members, gap, depth);
    FourParts(NewLine(gap, depth), Quoted(members[0].key), Separator(gap), value, more, rest);
  }

  lemma FourParts<T>(a: seq<T>, b: seq<T>, c: seq<T>, d: seq<T>, e: seq<T>, rest: seq<T>)
    ensures (a + (b + (c + (d + e)))) + rest == a + (b + (c + (d + (e + rest))))
  {
    Assoc(a, b + (c + (d + e)), rest);
    Assoc(b, c + (d + e), rest);
    Assoc(c, d + e, rest);
    Assoc(d, e, rest);
  }

  lemma QuoteBehindLineBreak(key: Text, gap: nat, depth: nat, rest: Text)
    ensures Skip(NewLine(gap, depth) + (Quoted(key) + rest)) == Quoted(key) + rest
  {
    QuotedRoundTrip(key, rest);
    SkipNewLine(gap, depth, Quoted(key) + rest);
  }

  lemma MembersHead(members: seq<Member>, gap: nat, depth: nat, rest: Text)
    requires members != []
    ensures var t := Skip(StringifyMembers(members, gap, depth) + rest); t != [] && t[0] != CLOSE_BRACE
  {
    MembersText(members, gap, depth, rest);
    var tail := Separator(gap) + (Stringify(members[0].value, gap, depth) + (MoreMembers(members, gap, depth) + rest));
    QuoteBehindLineBreak(members[0].key, gap, depth, tail);
    QuotedRoundTrip(members[0].key, tail);
  }

  lemma SeparatorText(gap: nat, rest: Text)
    ensures var t := Separator(gap) + rest;
            t != [] && t[0] == COLON && Skip(t) == t && t[1..] == Separator(gap)[1..] + rest
  {
  }

  lemma KeyThenColon(t: Text, inner: Text, key: Text, tail: Text)
    requires Skip(t) == [QUOTE] + inner && ParseChars(inner) == Some((key, tail))
    requires tail != [] && tail[0] == COLON && Skip(tail) == tail
    ensures ParseKey(t) == Some((key, tail[1..]))
  {
    assert ([QUOTE] + inner)[1..] == inner;
  }

  /** A member name and its colon, read back. */
  lemma KeyRoundTrip(key: Text, gap: nat, depth: nat, rest: Text)
    ensures ParseKey(NewLine(gap, depth) + (Quoted(key) + (Separator(gap) + rest)))
         == Some((key, Separator(gap)[1..] + rest))
  {
    var tail := Separator(gap) + rest;
    var inner := Escaped(key) + ([QUOTE] + tail);
    QuoteBehindLineBreak(key, gap, depth, tail);
    QuotedRoundTrip(key, tail);
    CharsRoundTrip(key, tail);
    SeparatorText(gap, rest);
    KeyThenColon(NewLine(gap, depth) + (Quoted(key) + tail), inner, key, tail);
  }

  lemma {:induction false} FirstMemberValue(v: Json, gap: nat, depth: nat, after: Text)
    requires Holdable(v) && EndsNumber(after)
    ensures ParseValue(Separator(gap)[1..] + (Stringify(v, gap, depth) + after)) == Some((v, after))
    decreases v, 2
  {
    ValueRoundTrip(v, gap, depth, after);
    StringifyHead(v, gap, depth);
    var t := Stringify(v, gap, depth) + after;
    if gap == 0 {
      assert Separator(gap)[1..] + t == t;
    } else {
      assert (Separator(gap)[1..] + t)[1..] == t && (Separator(gap)[1..] + t)[0] == SPACE;
      PaddedRoundTrip(Separator(gap)[1..], v, gap, depth, after);
    }
  }

  lemma LastMember(t: Text, key: Text, afterColon: Text, v: Json, after: Text, rest: Text)
    requires ParseKey(t) == Some((key, afterColon)) && ParseValue(afterColon) == Some((v, after))
    requires Skip(after) == [CLOSE_BRACE] + rest
    ensures ParseMembers(t) == Some(([Member(key, v)], rest))
  {
    assert ([CLOSE_BRACE] + rest)[1..] == rest;
  }

  lemma AnotherMember(
      t: Text, key: Text, afterColon: Text, v: Json, tail: Text, members: seq<Member>, rest: Text)
    requires ParseKey(t) == Some((key, afterColon)) && ParseValue(afterColon) == Some((v, [COMMA] + tail))
    requires ParseMembers(tail) == Some((members, rest))
    ensures ParseMembers(t) == Some(([Member(key, v)] + members, rest))
  {
    CommaSkips(tail);
  }

  /** What stands behind the first member's colon. */
  function AfterFirstColon(members: seq<Member>, gap: nat, depth: nat, rest: Text): Text
    requires members != []
  {
    Separator(gap)[1..] + (Stringify(members[0].value, gap, depth) + (MoreMembers(members, gap, depth) + rest))
  }

  lemma FirstKey(members: seq<Member>, gap: nat, depth: nat, rest: Text)
    requires members != []
    ensures ParseKey(StringifyMembers(members, gap, depth) + rest)
         == Some((members[0].key, AfterFirstColon(members, gap, depth, rest)))
  {
    MembersText(members, gap, depth, rest);
    KeyRoundTrip(members[0].key, gap, depth, Stringify(members[0].value, gap, depth) + (MoreMembers(members, gap, depth) + rest));
  }

  /** What follows the first of several members. */
  lemma MoreMembersText(members: seq<Member>, gap: nat, depth: nat, rest: Text)
    requires |members| > 1
    ensures MoreMembers(members, gap, depth) + rest == [COMMA] + (StringifyMembers(members[1..], gap, depth) + rest)
  {
    Assoc([COMMA], StringifyMembers(members[1..], gap, depth), rest);
  }

  /** The first member, read up to whatever follows its value. */
  lemma {:induction false} FirstMember(members: seq<Member>, gap: nat, depth: nat, rest: Text, after: Text)
    requires members != [] && Holdable(members[0].value)
    requires after == MoreMembers(members, gap, depth) + rest && EndsNumber(after)
    ensures ParseKey(StringifyMembers(members, gap, depth) + rest)
         == Some((members[0].key, AfterFirstColon(members, gap, depth, rest)))
    ensures ParseValue(AfterFirstColon(members, gap, depth, rest)) == Some((members[0].value, after))
    decreases members, 1
  {
    FirstKey(members, gap, depth, rest);
    FirstMemberValue(members[0].value, gap, depth, after);
  }

  /** The members of an object, read up to its closing brace. */
  lemma {:induction false} MembersRoundTrip(members: seq<Member>, gap: nat, depth: nat, rest: Text)
    requires members != [] && forall i :: 0 <= i < |members| ==> Holdable(members[i].value)
    ensures ParseMembers(StringifyMembers(members, gap, depth + 1) + Closing(gap, depth, CLOSE_BRACE, rest))
         == Some((members, rest))
    decreases members, 2
  {
    var close := Closing(gap, depth, CLOSE_BRACE, rest);
    ClosingSkips(gap, depth, CLOSE_BRACE, rest);
    if |members| == 1 {
      assert MoreMembers(members, gap, depth + 1) + close == close;
      FirstMember(members, gap, depth + 1, close, close);
      LastOfMembers(members, gap, depth + 1, close, rest);
    } else {
      var tail := StringifyMembers(members[1..], gap, depth + 1) + close;
      CommaSkips(tail);
      MoreMembersText(members, gap, depth + 1, close);
      FirstMember(members, gap, depth + 1, close, [COMMA] + tail);
      MembersRoundTrip(members[1..], gap, depth, rest);
      AnotherOfMembers(members, gap, depth + 1, close, tail, rest);
    }
  }

  lemma LastOfMembers(members: seq<Member>, gap: nat, depth: nat, close: Text, rest: Text)
    requires |members| == 1 && Skip(close) == [CLOSE_BRACE] + rest
    requires var afterColon := AfterFirstColon(members, gap, depth, close);
             && ParseKey(StringifyMembers(members, gap, depth) + close) == Some((members[0].key, afterColon))
             && ParseValue(afterColon) == Some((members[0].value, close))
    ensures ParseMembers(StringifyMembers(members, gap, depth) + close) == Some((members, rest))
  {
    var m := members[0];
    LastMember(
      StringifyMembers(members, gap, depth) + close, m.key, AfterFirstColon(members, gap, depth, close), m.value, close, rest);
    assert members == [Member(m.key, m.value)];
  }

  lemma AnotherOfMembers(members: seq<Member>, gap: nat, depth: nat, close: Text, tail: Text, rest: Text)
    requires |members| > 1 && ParseMembers(tail) == Some((members[1..], rest))
    requires var afterColon := AfterFirstColon(members, gap, depth, close);
             && ParseKey(StringifyMembers(members, gap, depth) + close) == Some((members[0].key, afterColon))
             && ParseValue(afterColon) == Some((members[0].value, [COMMA] + tail))
    ensures ParseMembers(StringifyMembers(members, gap, depth) + close) == Some((members, rest))
  {
    var m := members[0];
    AnotherMember(
      StringifyMembers(members, gap, depth) + close, m.key, AfterFirstColon(members, gap, depth, close), m.value, tail,
      members[1..], rest);
    assert members == [Member(m.key, m.value)] + members[1..];
  }

  /** What `JSON.stringify` writes, followed by nothing but white space, `JSON.parse` reads back. */
  lemma ParseStringify(v: Json, gap: nat, tail: Text)
    requires Holdable(v) && Skip(tail) == []
    ensures Parse(Stringify(v, gap, 0) + tail) == Some(v)
  {
    assert EndsNumber(tail) by {
      if tail != [] {
        assert IsSpace(tail[0]);
      }
    }
    ValueRoundTrip(v, gap, 0, tail);
  }
}
