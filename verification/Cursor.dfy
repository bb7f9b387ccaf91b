/** Opaque keyset cursors: base64url of the UTF-8 of the JSON of the two columns a query sorts by. */
module Cursor {
  import opened Wrappers
  import opened Json
  import opened JsonRoundTrip
  import opened Encodings

  datatype KeysetCursor = KeysetCursor(sortValue: Option<Text>, id: Text)

  datatype Error = InvalidCursor

  const SORT_VALUE: Text := [0x73, 0x6F, 0x72, 0x74, 0x56, 0x61, 0x6C, 0x75, 0x65]  // sortValue
  const ID: Text := [0x69, 0x64]  // id

  function CursorJson(c: KeysetCursor): Json {
    Obj([Member(SORT_VALUE, if c.sortValue.Some? then Str(c.sortValue.value) else Null), Member(ID, Str(c.id))])
  }

  function EncodeCursor(c: KeysetCursor): Text {
    Base64UrlEncode(Utf8Encode(Stringify(CursorJson(c), 0, 0)))
  }

  /** `object[key]`, absent standing for `undefined`. */
  function Get(members: seq<Member>, key: Text): Option<Json> {
    if members == [] then None
    else if members[0].key == key then Some(members[0].value)
    else Get(members[1..], key)
  }

  /** `isKeysetCursor`, and the two columns of a value that passes. */
  function AsCursor(v: Json): Option<KeysetCursor> {
    match v
    case Obj(members) =>
      (match (Get(members, SORT_VALUE), Get(members, ID))
       case (Some(Null), Some(Str(id))) => if |id| > 0 then Some(KeysetCursor(None, id)) else None
       case (Some(Str(sortValue)), Some(Str(id))) => if |id| > 0 then Some(KeysetCursor(Some(sortValue), id)) else None
       case _ => None)
    case _ => None
  }

  function DecodeCursor(raw: Text): Result<KeysetCursor, Error> {
    match Parse(Utf8Decode(Base64UrlDecode(raw)))
    case None => Err(InvalidCursor)
    case Some(v) => if AsCursor(v).Some? then Ok(AsCursor(v).value) else Err(InvalidCursor)
  }

  // ----- JSON.stringify never writes a lone surrogate -----

  lemma {:induction false} WellFormedAppend(a: Text, b: Text)
    requires WellFormed(a) && WellFormed(b)
    ensures WellFormed(a + b)
    decreases |a|
  {
    if a == [] {
      assert a + b == b;
    } else if PairAhead(a) {
      WellFormedAppend(a[2..], b);
      assert (a + b)[2..] == a[2..] + b;
    } else {
      WellFormedAppend(a[1..], b);
      assert (a + b)[1..] == a[1..] + b;
    }
  }

  lemma {:induction false} PlainTextIsWellFormed(t: Text)
    requires forall i :: 0 <= i < |t| ==> !IsSurrogate(t[i])
    ensures WellFormed(t)
  {
    if t != [] {
      PlainTextIsWellFormed(t[1..]);
    }
  }

  lemma {:induction false} EscapedIsWellFormed(s: Text)
    ensures WellFormed(Escaped(s))
    decreases |s|
  {
    if s == [] {
    } else if PairAhead(s) {
      EscapedIsWellFormed(s[2..]);
      assert s[..2][2..] == [];
      WellFormedAppend(s[..2], Escaped(s[2..]));
    } else {
      EscapedIsWellFormed(s[1..]);
      PlainTextIsWellFormed(EscapedUnit(s[0]));
      WellFormedAppend(EscapedUnit(s[0]), Escaped(s[1..]));
    }
  }

  lemma QuotedIsWellFormed(s: Text)
    ensures WellFormed(Quoted(s))
  {
    EscapedIsWellFormed(s);
    PlainTextIsWellFormed([QUOTE]);
    WellFormedAppend(Escaped(s), [QUOTE]);
    WellFormedAppend([QUOTE], Escaped(s) + [QUOTE]);
  }

  lemma NumberIsWellFormed(t: Text)
    requires IsNumber(t)
    ensures WellFormed(t)
  {
    NumberUnits(t);
    PlainTextIsWellFormed(t);
  }

  lemma ScalarIsWellFormed(v: Json, gap: nat, depth: nat)
    requires Holdable(v) && !v.Arr? && !v.Obj?
    ensures WellFormed(Stringify(v, gap, depth))
  {
    match v
    case Null => PlainTextIsWellFormed(NULL);
    case Bool(b) => PlainTextIsWellFormed(if b then TRUE else FALSE);
    case Num(text) => NumberIsWellFormed(text);
    case Str(s) => QuotedIsWellFormed(s);
  }

  /** Lone surrogates are escaped, so the text is well-formed UTF-16 whatever the value holds. */
  lemma {:induction false} StringifyIsWellFormed(v: Json, gap: nat, depth: nat)
    requires Holdable(v)
    ensures WellFormed(Stringify(v, gap, depth))
    decreases v, 2
  {
    match v
    case Arr(items) => ArrayIsWellFormed(v, gap, depth);
    case Obj(members) => ObjectIsWellFormed(v, gap, depth);
    case _ => ScalarIsWellFormed(v, gap, depth);
  }

  lemma {:induction false} ArrayIsWellFormed(v: Json, gap: nat, depth: nat)
    requires Holdable(v) && v.Arr?
    ensures WellFormed(Stringify(v, gap, depth))
    decreases v, 1
  {
    if v.items == [] {
      PlainTextIsWellFormed([OPEN_BRACKET, CLOSE_BRACKET]);
    } else {
      ItemsAreWellFormed(v.items, gap, depth + 1);
      BracketedIsWellFormed(OPEN_BRACKET, StringifyItems(v.items, gap, depth + 1), gap, depth, CLOSE_BRACKET);
    }
  }

  lemma {:induction false} ObjectIsWellFormed(v: Json, gap: nat, depth: nat)
    requires Holdable(v) && v.Obj?
    ensures WellFormed(Stringify(v, gap, depth))
    decreases v, 1
  {
    if v.members == [] {
      PlainTextIsWellFormed([OPEN_BRACE, CLOSE_BRACE]);
    } else {
      MembersAreWellFormed(v.members, gap, depth + 1);
      BracketedIsWellFormed(OPEN_BRACE, StringifyMembers(v.members, gap, depth + 1), gap, depth, CLOSE_BRACE);
    }
  }

  lemma BracketedIsWellFormed(open: Unit, inner: Text, gap: nat, depth: nat, close: Unit)
    requires !IsSurrogate(open) && !IsSurrogate(close) && WellFormed(inner)
    ensures WellFormed([open] + (inner + (NewLine(gap, depth) + [close])))
  {
    PlainTextIsWellFormed(NewLine(gap, depth));
    BracketsAreWellFormed(open, inner, NewLine(gap, depth), close);
  }

  lemma BracketsAreWellFormed(open: Unit, inner: Text, line: Text, close: Unit)
    requires !IsSurrogate(open) && !IsSurrogate(close) && WellFormed(inner) && WellFormed(line)
    ensures WellFormed([open] + (inner + (line + [close])))
  {
    PlainTextIsWellFormed([open]);
    PlainTextIsWellFormed([close]);
    WellFormedAppend(line, [close]);
    WellFormedAppend(inner, line + [close]);
    WellFormedAppend([open], inner + (line + [close]));
  }

  lemma {:induction false} ItemsAreWellFormed(items: seq<Json>, gap: nat, depth: nat)
    requires items != [] && forall i :: 0 <= i < |items| ==> Holdable(items[i])
    ensures WellFormed(StringifyItems(items, gap, depth))
    decreases items, 1
  {
    var line, first, more := NewLine(gap, depth), Stringify(items[0], gap, depth), MoreItems(items, gap, depth);
    PlainTextIsWellFormed(line);
    PlainTextIsWellFormed([COMMA]);
    StringifyIsWellFormed(items[0], gap, depth);
    if |items| > 1 {
      ItemsAreWellFormed(items[1..], gap, depth);
      WellFormedAppend([COMMA], StringifyItems(items[1..], gap, depth));
    }
    WellFormedAppend(first, more);
    WellFormedAppend(line, first + more);
  }

  lemma {:induction false} MembersAreWellFormed(members: seq<Member>, gap: nat, depth: nat)
    requires members != [] && forall i :: 0 <= i < |members| ==> Holdable(members[i].value)
    ensures WellFormed(StringifyMembers(members, gap, depth))
    decreases members, 1
  {
    var line, key, value := NewLine(gap, depth), Quoted(members[0].key), Stringify(members[0].value, gap, depth);
    var more := MoreMembers(members, gap, depth);
    PlainTextIsWellFormed(line);
    PlainTextIsWellFormed([COMMA]);
    PlainTextIsWellFormed(Separator(gap));
    QuotedIsWellFormed(members[0].key);
    StringifyIsWellFormed(members[0].value, gap, depth);
    if |members| > 1 {
      MembersAreWellFormed(members[1..], gap, depth);
      WellFormedAppend([COMMA], StringifyMembers(members[1..], gap, depth));
    }
    WellFormedAppend(value, more);
    WellFormedAppend(Separator(gap), value + more);
    WellFormedAppend(key, Separator(gap) + (value + more));
    WellFormedAppend(line, key + (Separator(gap) + (value + more)));
  }

  // ----- The cursor round trip -----

  lemma CursorJsonIsHoldable(c: KeysetCursor)
    ensures Holdable(CursorJson(c))
  {
    assert !IsIndex(ID) && !IsIndex(SORT_VALUE);
  }

  lemma CursorJsonReadsBack(c: KeysetCursor)
    ensures AsCursor(CursorJson(c)) == if c.id != [] then Some(c) else None
  {
    var members := CursorJson(c).members;
    assert members[1..][0] == members[1];
    assert SORT_VALUE != ID;
    assert Get(members, ID) == Get(members[1..], ID) == Some(Str(c.id));
  }

  /** A cursor decodes to itself, unless its id is empty: then it is rejected. */
  lemma CursorRoundTrip(c: KeysetCursor)
    ensures DecodeCursor(EncodeCursor(c)) == if c.id != [] then Ok(c) else Err(InvalidCursor)
  {
    var v := CursorJson(c);
    var text := Stringify(v, 0, 0);
    CursorJsonIsHoldable(c);
    StringifyIsWellFormed(v, 0, 0);
    Base64UrlRoundTrip(Utf8Encode(text));
    Utf8RoundTrip(text);
    ParseStringify(v, 0, []);
    assert text + [] == text;
    CursorJsonReadsBack(c);
  }

  /** Two rows never share a cursor, if their ids are not empty. */
  lemma CursorsAreDistinct(c: KeysetCursor, d: KeysetCursor)
    requires c.id != [] && EncodeCursor(c) == EncodeCursor(d)
    ensures c == d
  {
    CursorRoundTrip(c);
    CursorRoundTrip(d);
  }

  /** Cursors contain only characters that need no escaping in a URL. */
  lemma CursorIsUrlSafe(c: KeysetCursor)
    ensures forall i :: 0 <= i < |EncodeCursor(c)| ==>
      var u := EncodeCursor(c)[i];
      IsDigit(u) || 0x41 <= u <= 0x5A || 0x61 <= u <= 0x7A || u == MINUS || u == 0x5F
  {
  }

  lemma {:induction false} GetIsMember(members: seq<Member>, key: Text)
    ensures Get(members, key).Some? ==> Member(key, Get(members, key).value) in members
    ensures Get(members, key).None? ==> forall m :: m in members ==> m.key != key
  {
    if members != [] {
      GetIsMember(members[1..], key);
      assert members == [members[0]] + members[1..];
    }
  }

  /** What is accepted is what the text holds: an object with this id, a string and not empty, and this sort value, a string or null. */
  lemma AcceptedCursorIsInText(raw: Text, c: KeysetCursor)
    requires DecodeCursor(raw) == Ok(c)
    ensures var v := Parse(Utf8Decode(Base64UrlDecode(raw)));
            && v.Some? && v.value.Obj? && c.id != []
            && Member(ID, Str(c.id)) in v.value.members
            && Member(SORT_VALUE, if c.sortValue.Some? then Str(c.sortValue.value) else Null) in v.value.members
  {
    var v := Parse(Utf8Decode(Base64UrlDecode(raw)));
    if v.Some? && v.value.Obj? {
      GetIsMember(v.value.members, ID);
      GetIsMember(v.value.members, SORT_VALUE);
    }
  }

  /** A decoded cursor always has an id. */
  lemma DecodedHasId(raw: Text)
    ensures DecodeCursor(raw).Ok? ==> DecodeCursor(raw).value.id != []
  {
  }
}
