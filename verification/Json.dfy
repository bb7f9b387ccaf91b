/**
  JSON values as JavaScript holds them, `JSON.stringify` and `JSON.parse`.  Text is a sequence of UTF-16
  code units, lone surrogates included.  A number is held by its JavaScript text.
 */
module Json {
  import opened Wrappers
  import L = Lexicographic

  newtype Unit = u: int | 0 <= u < 0x1_0000
  type Text = seq<Unit>

  datatype Json =
    | Null
    | Bool(value: bool)
    | Num(text: Text)
    | Str(text: Text)
    | Arr(items: seq<Json>)
    | Obj(members: seq<Member>)  // in the order in which JavaScript enumerates the keys

  datatype Member = Member(key: Text, value: Json)

  const TAB: Unit := 0x09
  const LF: Unit := 0x0A
  const CR: Unit := 0x0D
  const SPACE: Unit := 0x20
  const QUOTE: Unit := 0x22
  const PLUS: Unit := 0x2B
  const COMMA: Unit := 0x2C
  const MINUS: Unit := 0x2D
  const DOT: Unit := 0x2E
  const COLON: Unit := 0x3A
  const OPEN_BRACKET: Unit := 0x5B
  const BACKSLASH: Unit := 0x5C
  const CLOSE_BRACKET: Unit := 0x5D
  const OPEN_BRACE: Unit := 0x7B
  const CLOSE_BRACE: Unit := 0x7D

  const NULL: Text := [0x6E, 0x75, 0x6C, 0x6C]
  const TRUE: Text := [0x74, 0x72, 0x75, 0x65]
  const FALSE: Text := [0x66, 0x61, 0x6C, 0x73, 0x65]

  // ----- Numbers: section 6 of RFC 8259 -----

  predicate IsDigit(u: Unit) {
    0x30 <= u <= 0x39
  }

  predicate IsExponentMark(u: Unit) {
    u == 0x65 || u == 0x45
  }

  predicate IsNumberUnit(u: Unit) {
    IsDigit(u) || u == PLUS || u == MINUS || u == DOT || IsExponentMark(u)
  }

  function SkipDigits(t: Text): (rest: Text)
    ensures |rest| <= |t|
  {
    if t != [] && IsDigit(t[0]) then SkipDigits(t[1..]) else t
  }

  /** What is left after a leading integer part: `0`, or digits that do not start with 0. */
  function AfterInteger(t: Text): Option<Text> {
    if t == [] || !IsDigit(t[0]) then None
    else if t[0] == 0x30 then Some(t[1..])
    else Some(SkipDigits(t))
  }

  function AfterFraction(t: Text): Option<Text> {
    if t == [] || t[0] != DOT then Some(t)
    else if |t| > 1 && IsDigit(t[1]) then Some(SkipDigits(t[1..]))
    else None
  }

  predicate IsExponent(t: Text) {
    t == [] ||
    (&& IsExponentMark(t[0])
     && var digits := if |t| > 1 && (t[1] == PLUS || t[1] == MINUS) then t[2..] else t[1..];
        digits != [] && SkipDigits(digits) == [])
  }

  predicate IsNumber(t: Text) {
    var unsigned := if t != [] && t[0] == MINUS then t[1..] else t;
    match AfterInteger(unsigned)
    case None => false
    case Some(afterInteger) =>
      match AfterFraction(afterInteger)
      case None => false
      case Some(afterFraction) => IsExponent(afterFraction)
  }

  // ----- Strings: section 7 of RFC 8259 -----

  predicate IsHigh(u: Unit) {
    0xD800 <= u <= 0xDBFF
  }

  predicate IsLow(u: Unit) {
    0xDC00 <= u <= 0xDFFF
  }

  predicate IsSurrogate(u: Unit) {
    IsHigh(u) || IsLow(u)
  }

  /** A well-formed surrogate pair stands at the front of `t`. */
  predicate PairAhead(t: Text) {
    |t| > 1 && IsHigh(t[0]) && IsLow(t[1])
  }

  /** A lower-case hexadecimal digit. */
  function HexDigit(n: int): Unit
    requires 0 <= n < 16
  {
    if n < 10 then (0x30 + n) as Unit else (0x61 + n - 10) as Unit
  }

  function HexValue(u: Unit): (r: Option<int>)
    ensures r.Some? ==> 0 <= r.value < 16
  {
    if IsDigit(u) then Some(u as int - 0x30)
    else if 0x61 <= u <= 0x66 then Some(u as int - 0x61 + 10)
    else if 0x41 <= u <= 0x46 then Some(u as int - 0x41 + 10)
    else None
  }

  function UnicodeEscape(u: Unit): Text {
    var n := u as int;
    [BACKSLASH, 0x75, HexDigit(n / 4096), HexDigit(n / 256 % 16), HexDigit(n / 16 % 16), HexDigit(n % 16)]
  }

  function EscapedUnit(u: Unit): Text {
    if u == QUOTE then [BACKSLASH, QUOTE]
    else if u == BACKSLASH then [BACKSLASH, BACKSLASH]
    else if u == 0x08 then [BACKSLASH, 0x62]
    else if u == 0x0C then [BACKSLASH, 0x66]
    else if u == LF then [BACKSLASH, 0x6E]
    else if u == CR then [BACKSLASH, 0x72]
    else if u == TAB then [BACKSLASH, 0x74]
    else if u < SPACE || IsSurrogate(u) then UnicodeEscape(u)
    else [u]
  }

  /** The inside of a string literal: pairs stay as they are, a lone surrogate is escaped. */
  function Escaped(s: Text): Text {
    if s == [] then []
    else if PairAhead(s) then s[..2] + Escaped(s[2..])
    else EscapedUnit(s[0]) + Escaped(s[1..])
  }

  function Quoted(s: Text): Text {
    [QUOTE] + (Escaped(s) + [QUOTE])
  }

  /** The unit that a two-unit escape stands for. */
  function ShortEscape(u: Unit): Option<Unit> {
    if u == QUOTE || u == BACKSLASH || u == 0x2F then Some(u)
    else if u == 0x62 then Some(0x08)
    else if u == 0x66 then Some(0x0C)
    else if u == 0x6E then Some(LF)
    else if u == 0x72 then Some(CR)
    else if u == 0x74 then Some(TAB)
    else None
  }

  function FourHex(t: Text): (r: Option<Unit>)
    requires |t| >= 4
  {
    match (HexValue(t[0]), HexValue(t[1]), HexValue(t[2]), HexValue(t[3]))
    case (Some(a), Some(b), Some(c), Some(d)) => Some((a * 4096 + b * 256 + c * 16 + d) as Unit)
    case _ => None
  }

  function Prepend(u: Unit, r: Option<(Text, Text)>): Option<(Text, Text)> {
    match r
    case None => None
    case Some((s, rest)) => Some(([u] + s, rest))
  }

  /** A string literal after its opening quote: the string, and what follows the closing quote. */
  function ParseChars(t: Text): (r: Option<(Text, Text)>)
    ensures r.Some? ==> |r.value.1| < |t|
    decreases |t|
  {
    if t == [] || t[0] < SPACE then None
    else if t[0] == QUOTE then Some(([], t[1..]))
    else if t[0] != BACKSLASH then Prepend(t[0], ParseChars(t[1..]))
    else if |t| < 2 then None
    else if t[1] == 0x75 then
      if |t| < 6 || FourHex(t[2..]).None? then None else Prepend(FourHex(t[2..]).value, ParseChars(t[6..]))
    else if ShortEscape(t[1]).None? then None
    else Prepend(ShortEscape(t[1]).value, ParseChars(t[2..]))
  }

  // ----- Keys of JavaScript objects -----

  function CodeUnit(u: Unit): int {
    u as int
  }

  predicate LexLess(a: Text, b: Text) {
    L.Less(CodeUnit, a, b)
  }

  const MAX_INDEX: Text := [0x34, 0x32, 0x39, 0x34, 0x39, 0x36, 0x37, 0x32, 0x39, 0x35]

  /** An array index: a decimal below 2^32 - 1 without superfluous zeros.  JavaScript enumerates these first. */
  predicate IsIndex(key: Text) {
    && key != [] && SkipDigits(key) == [] && (key[0] == 0x30 ==> |key| == 1)
    && (|key| < 10 || (|key| == 10 && LexLess(key, MAX_INDEX)))
  }

  /** The numeric order of array indices. */
  predicate IndexLess(a: Text, b: Text) {
    |a| < |b| || (|a| == |b| && LexLess(a, b))
  }

  /** Key `a` may be enumerated ahead of a different key `b`. */
  predicate MayPrecede(a: Text, b: Text) {
    IsIndex(b) ==> IsIndex(a) && IndexLess(a, b)
  }

  predicate HasKey(members: seq<Member>, key: Text) {
    exists i :: 0 <= i < |members| && members[i].key == key
  }

  /** Adds a property that is not there yet, where enumeration will find it. */
  function Placed(members: seq<Member>, m: Member): seq<Member> {
    if members == [] || MayPrecede(members[|members| - 1].key, m.key) then members + [m]
    else Placed(members[..|members| - 1], m) + [members[|members| - 1]]
  }

  function Replaced(members: seq<Member>, m: Member): seq<Member> {
    seq(|members|, i requires 0 <= i < |members| => if members[i].key == m.key then m else members[i])
  }

  /** Defining an own property: an existing key keeps its place and takes the new value. */
  function Put(members: seq<Member>, m: Member): seq<Member> {
    if HasKey(members, m.key) then Replaced(members, m) else Placed(members, m)
  }

  function PutAll(members: seq<Member>): seq<Member> {
    if members == [] then [] else Put(PutAll(members[..|members| - 1]), members[|members| - 1])
  }

  /** How JavaScript keeps the members of an object: no key twice, and array indices first, ascending. */
  ghost predicate Enumerable(members: seq<Member>) {
    forall i, j :: 0 <= i < j < |members| ==>
      members[i].key != members[j].key && MayPrecede(members[i].key, members[j].key)
  }

  /** A value that a JavaScript program can hold. */
  ghost predicate Holdable(v: Json) {
    match v
    case Num(text) => IsNumber(text)
    case Arr(items) => forall i :: 0 <= i < |items| ==> Holdable(items[i])
    case Obj(members) => Enumerable(members) && forall i :: 0 <= i < |members| ==> Holdable(members[i].value)
    case _ => true
  }

  // ----- JSON.stringify(value, null, gap) -----

  function Spaces(n: nat): Text {
    seq(n, _ => SPACE)
  }

  function NewLine(gap: nat, depth: nat): Text {
    if gap == 0 then [] else [LF] + Spaces(gap * depth)
  }

  function Separator(gap: nat): Text {
    if gap == 0 then [COLON] else [COLON, SPACE]
  }

  function Stringify(v: Json, gap: nat, depth: nat): Text
    decreases v, 0
  {
    match v
    case Null => NULL
    case Bool(b) => if b then TRUE else FALSE
    case Num(text) => text
    case Str(s) => Quoted(s)
    case Arr(items) =>
      if items == [] then [OPEN_BRACKET, CLOSE_BRACKET]
      else [OPEN_BRACKET] + (StringifyItems(items, gap, depth + 1) + (NewLine(gap, depth) + [CLOSE_BRACKET]))
    case Obj(members) =>
      if members == [] then [OPEN_BRACE, CLOSE_BRACE]
      else [OPEN_BRACE] + (StringifyMembers(members, gap, depth + 1) + (NewLine(gap, depth) + [CLOSE_BRACE]))
  }

  function StringifyItems(items: seq<Json>, gap: nat, depth: nat): Text
    requires items != []
    decreases items, 1
  {
    NewLine(gap, depth) + (Stringify(items[0], gap, depth) + MoreItems(items, gap, depth))
  }

  function MoreItems(items: seq<Json>, gap: nat, depth: nat): Text
    requires items != []
    decreases items, 0
  {
    if |items| == 1 then [] else [COMMA] + StringifyItems(items[1..], gap, depth)
  }

  function StringifyMembers(members: seq<Member>, gap: nat, depth: nat): Text
    requires members != []
    decreases members, 1
  {
    NewLine(gap, depth)
    + (Quoted(members[0].key)
       + (Separator(gap) + (Stringify(members[0].value, gap, depth) + MoreMembers(members, gap, depth))))
  }

  function MoreMembers(members: seq<Member>, gap: nat, depth: nat): Text
    requires members != []
    decreases members, 0
  {
    if |members| == 1 then [] else [COMMA] + StringifyMembers(members[1..], gap, depth)
  }

  // ----- JSON.parse -----

  predicate IsSpace(u: Unit) {
    u == SPACE || u == TAB || u == LF || u == CR
  }

  function Skip(t: Text): (rest: Text)
    ensures |rest| <= |t|
    ensures rest == [] || !IsSpace(rest[0])
  {
    if t != [] && IsSpace(t[0]) then Skip(t[1..]) else t
  }

  /** The longest prefix of number units. */
  function NumberToken(t: Text): (token: Text)
    ensures |token| <= |t|
  {
    if t != [] && IsNumberUnit(t[0]) then [t[0]] + NumberToken(t[1..]) else []
  }

  function ParseLiteral(t: Text, literal: Text, v: Json): Option<(Json, Text)> {
    if literal <= t then Some((v, t[|literal|..])) else None
  }

  function ParseValue(t: Text): (r: Option<(Json, Text)>)
    ensures r.Some? ==> |r.value.1| < |t|
    decreases |t|, 0
  {
    var s := Skip(t);
    if s == [] then None
    else if s[0] == QUOTE then
      match ParseChars(s[1..])
      case None => None
      case Some((text, rest)) => Some((Str(text), rest))
    else if s[0] == OPEN_BRACKET then
      var u := Skip(s[1..]);
      if u != [] && u[0] == CLOSE_BRACKET then Some((Arr([]), u[1..]))
      else
        match ParseItems(s[1..])
        case None => None
        case Some((items, rest)) => Some((Arr(items), rest))
    else if s[0] == OPEN_BRACE then
      var u := Skip(s[1..]);
      if u != [] && u[0] == CLOSE_BRACE then Some((Obj([]), u[1..]))
      else
        match ParseMembers(s[1..])
        case None => None
        case Some((members, rest)) => Some((Obj(PutAll(members)), rest))
    else if s[0] == NULL[0] then ParseLiteral(s, NULL, Null)
    else if s[0] == TRUE[0] then ParseLiteral(s, TRUE, Bool(true))
    else if s[0] == FALSE[0] then ParseLiteral(s, FALSE, Bool(false))
    else
      var token := NumberToken(s);
      if IsNumber(token) then Some((Num(token), s[|token|..])) else None
  }

  /** Array elements up to and including the closing bracket. */
  function ParseItems(t: Text): (r: Option<(seq<Json>, Text)>)
    ensures r.Some? ==> |r.value.1| < |t|
    decreases |t|, 1
  {
    match ParseValue(t)
    case None => None
    case Some((v, afterValue)) =>
      var s := Skip(afterValue);
      if s == [] then None
      else if s[0] == CLOSE_BRACKET then Some(([v], s[1..]))
      else if s[0] != COMMA then None
      else
        match ParseItems(s[1..])
        case None => None
        case Some((items, rest)) => Some(([v] + items, rest))
  }

  /** A member name with its colon: the name, and what follows the colon. */
  function ParseKey(t: Text): (r: Option<(Text, Text)>)
    ensures r.Some? ==> |r.value.1| < |t|
  {
    var s := Skip(t);
    if s == [] || s[0] != QUOTE then None
    else
      match ParseChars(s[1..])
      case None => None
      case Some((key, afterKey)) =>
        var u := Skip(afterKey);
        if u == [] || u[0] != COLON then None else Some((key, u[1..]))
  }

  /** Object members up to and including the closing brace, as written. */
  function ParseMembers(t: Text): (r: Option<(seq<Member>, Text)>)
    ensures r.Some? ==> |r.value.1| < |t|
    decreases |t|, 1
  {
    match ParseKey(t)
    case None => None
    case Some((key, afterColon)) =>
      match ParseValue(afterColon)
      case None => None
      case Some((v, afterValue)) =>
        var s := Skip(afterValue);
        if s == [] then None
        else if s[0] == CLOSE_BRACE then Some(([Member(key, v)], s[1..]))
        else if s[0] != COMMA then None
        else
          match ParseMembers(s[1..])
          case None => None
          case Some((members, rest)) => Some(([Member(key, v)] + members, rest))
  }

  /** `JSON.parse`: one value, nothing but white space after it. */
  function Parse(t: Text): Option<Json> {
    match ParseValue(t)
    case None => None
    case Some((v, rest)) => if Skip(rest) == [] then Some(v) else None
  }
}
