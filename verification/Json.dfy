/** The JSON parser of the list language: combinators over an input that yield a
    remainder and a value. */
module Json {
  datatype Json =
    | Null
    | Bool(b: bool)
    | Number(text: string)                  // the exact decimal text
    | String(s: string)
    | Array(items: seq<Json>)
    | Object(fields: map<string, Json>)

  /** `Error` lets an alternative be tried, `Failure` (also: input that might still
      continue) does not. */
  datatype Parsed<+T> = Ok(rest: string, value: T) | Error | Failure

  // ------------------------------------------------------------ primitives

  /** A fixed word; an input that ends inside the word might still continue. */
  function Tag(word: string, s: string): (r: Parsed<()>)
    ensures r.Ok? <==> word <= s
    ensures r.Ok? ==> s == word + r.rest
  {
    if word <= s then Ok(s[|word|..], ())
    else if s <= word then Failure
    else Error
  }

  function Char(c: char, s: string): (r: Parsed<()>)
    ensures r.Ok? <==> s != "" && s[0] == c
    ensures r.Ok? ==> s == [c] + r.rest
  {
    if s == "" then Failure else if s[0] == c then Ok(s[1..], ()) else Error
  }

  predicate IsSpace(c: char) {
    c == ' ' || c == '\t' || c == '\r' || c == '\n'
  }

  predicate IsPad(s: string) {
    forall i :: 0 <= i < |s| ==> IsSpace(s[i])
  }

  /** `multispace0`: skips white space, provided something follows it. */
  function Multispace0(s: string): (r: Parsed<()>)
    ensures !r.Error?
    ensures r.Ok? ==> r.rest != "" && !IsSpace(r.rest[0]) && |r.rest| <= |s|
  {
    if s == "" then Failure
    else if IsSpace(s[0]) then Multispace0(s[1..])
    else Ok(s, ())
  }

  /** `ws(char(c))` */
  function Spaced(c: char, s: string): (r: Parsed<()>)
    ensures r.Ok? ==> |r.rest| < |s|
  {
    match Multispace0(s)
    case Ok(s1, _) => (
      match Char(c, s1)
      case Ok(s2, _) => Multispace0(s2)
      case Error => Error
      case Failure => Failure)
    case Error => Error
    case Failure => Failure
  }

  // --------------------------------------------------------------- strings

  function HexDigit(c: char): (r: int)
    ensures -1 <= r < 16
  {
    if '0' <= c <= '9' then c as int - '0' as int
    else if 'a' <= c <= 'f' then c as int - 'a' as int + 10
    else if 'A' <= c <= 'F' then c as int - 'A' as int + 10
    else -1
  }

  /** Base 16, -1 for anything that is not a digit string. */
  function HexDigits(t: string): (r: int)
    ensures -1 <= r
    ensures |t| <= 4 ==> r < [1, 0x10, 0x100, 0x1000, 0x10000][|t|]
  {
    if t == "" then 0
    else
      var high := HexDigits(t[..|t| - 1]);
      var low := HexDigit(t[|t| - 1]);
      if high < 0 || low < 0 then -1 else 16 * high + low
  }

  /** What reading a four-character text as a 16-bit number in base 16 yields; a
      leading plus sign is accepted. */
  function U16FromHex(t: string): (r: int)
    requires |t| == 4
    ensures -1 <= r < 0x10000
  {
    if t[0] == '+' then HexDigits(t[1..]) else HexDigits(t)
  }

  function U16Hex(s: string): (r: Parsed<int>)
    ensures r.Ok? ==> |s| >= 4 && r.rest == s[4..] && 0 <= r.value < 0x10000
  {
    if |s| < 4 then Failure
    else if U16FromHex(s[..4]) < 0 then Error
    else Ok(s[4..], U16FromHex(s[..4]))
  }

  predicate IsSurrogate(cp: int) {
    0xD800 <= cp < 0xE000
  }

  predicate IsHigh(cp: int) {
    0xD800 <= cp < 0xDC00
  }

  predicate IsLow(cp: int) {
    0xDC00 <= cp < 0xE000
  }

  function Combine(high: int, low: int): (r: char)
    requires IsHigh(high) && IsLow(low)
    ensures 0x10000 <= r as int <= 0x10FFFF
  {
    ((high - 0xD800) * 0x400 + (low - 0xDC00) + 0x10000) as char
  }

  function SurrogatePair(s: string): (r: Parsed<char>)
    ensures r.Ok? ==> |r.rest| < |s|
  {
    match U16Hex(s)
    case Ok(s1, high) => (
      match Tag("\\u", s1)
      case Ok(s2, _) => (
        match U16Hex(s2)
        case Ok(s3, low) => if IsHigh(high) && IsLow(low) then Ok(s3, Combine(high, low)) else Error
        case Error => Error
        case Failure => Failure)
      case Error => Error
      case Failure => Failure)
    case Error => Error
    case Failure => Failure
  }

  function UnicodeEscape(s: string): (r: Parsed<char>)
    ensures r.Ok? ==> |r.rest| < |s|
  {
    match U16Hex(s)
    case Ok(s1, cp) => if !IsSurrogate(cp) then Ok(s1, cp as char) else SurrogatePair(s)
    case Error => SurrogatePair(s)
    case Failure => Failure
  }

  predicate IsShortEscape(c: char) {
    c in "\"\\/bfnrt"
  }

  function ShortEscape(c: char): char {
    match c
    case 'b' => '\U{0008}'
    case 'f' => '\U{000C}'
    case 'n' => '\n'
    case 'r' => '\r'
    case 't' => '\t'
    case _ => c
  }

  function Escape(s: string): (r: Parsed<char>)
    ensures r.Ok? ==> |r.rest| < |s|
  {
    if s == "" then Failure
    else if IsShortEscape(s[0]) then Ok(s[1..], ShortEscape(s[0]))
    else if s[0] == 'u' then UnicodeEscape(s[1..])
    else Error
  }

  function Character(s: string): (r: Parsed<char>)
    ensures r.Ok? ==> |r.rest| < |s|
  {
    if s == "" then Failure
    else if s[0] == '"' then Error
    else if s[0] == '\\' then Escape(s[1..])
    else Ok(s[1..], s[0])
  }

  /** As many characters as there are. */
  function Characters(s: string): (r: Parsed<string>)
    ensures r.Ok? ==> |r.rest| <= |s|
    ensures !r.Error?
    decreases |s|
  {
    match Character(s)
    case Ok(s1, c) => (
      match Characters(s1)
      case Ok(s2, cs) => Ok(s2, [c] + cs)
      case Error => Error
      case Failure => Failure)
    case Error => Ok(s, "")
    case Failure => Failure
  }

  function ParseString(s: string): (r: Parsed<string>)
    ensures r.Ok? ==> |r.rest| < |s|
  {
    match Char('"', s)
    case Ok(s1, _) => (
      match Characters(s1)
      case Ok(s2, cs) => (
        match Char('"', s2)
        case Ok(s3, _) => Ok(s3, cs)
        case Error => Error
        case Failure => Failure)
      case Error => Error
      case Failure => Failure)
    case Error => Error
    case Failure => Failure
  }

  // --------------------------------------------------------------- numbers

  predicate IsDigit(c: char) {
    '0' <= c <= '9'
  }

  predicate AllDigits(s: string) {
    forall i :: 0 <= i < |s| ==> IsDigit(s[i])
  }

  /** How many digits the input starts with. */
  function DigitCount(s: string): (n: nat)
    ensures n <= |s| && AllDigits(s[..n])
    ensures n < |s| ==> !IsDigit(s[n])
  {
    if s == "" || !IsDigit(s[0]) then 0
    else
      var n := DigitCount(s[1..]);
      assert s[..n + 1] == [s[0]] + s[1..][..n];
      n + 1
  }

  /** The length of the longest text `digits [. [digits]]` or `. digits`, if any. */
  function NumberSpan(s: string): (r: Parsed<string>)
    ensures r.Ok? ==> r.value != "" && s == r.value + r.rest
  {
    var n := DigitCount(s);
    if n > 0 then
      if n < |s| && s[n] == '.' then
        var m := n + 1 + DigitCount(s[n + 1..]);
        Ok(s[m..], s[..m])
      else Ok(s[n..], s[..n])
    else if s == "" then Failure
    else if s[0] == '.' && DigitCount(s[1..]) > 0 then
      var m := 1 + DigitCount(s[1..]);
      Ok(s[m..], s[..m])
    else Error
  }

  /** Digits without leading zeros, with at least one digit on each side of a dot. */
  predicate IsDecimal(t: string) {
    var n := DigitCount(t);
    && n > 0
    && (t[0] == '0' ==> n == 1)
    && (n == |t| || (t[n] == '.' && n + 1 < |t| && AllDigits(t[n + 1..])))
  }

  /** The decimals that `serde_json::Number` takes. It refuses those beyond the range of
      its floats; which ones that are depends on how the library is built, so they may be
      any: everything about the parser holds for whatever value this constant has. */
  const REPRESENTABLE: string -> bool

  /** A text that becomes a number. */
  predicate IsNumber(t: string) {
    IsDecimal(t) && REPRESENTABLE(t)
  }

  function ParseNumber(s: string): (r: Parsed<string>)
    ensures r.Ok? ==> |r.rest| < |s|
  {
    match NumberSpan(s)
    case Ok(rest, text) => if IsNumber(text) then Ok(rest, text) else Failure
    case Error => Error
    case Failure => Failure
  }

  // ------------------------------------------------------ values and lists

  /** Arrays and objects are read alike, up to their brackets and their entries. */
  datatype Shape = ArrayShape | ObjectShape {
    function Open(): char {
      if ArrayShape? then '[' else '{'
    }

    function Close(): char {
      if ArrayShape? then ']' else '}'
    }
  }

  /** An array element has no key; the empty string stands in for it. */
  type Pair = (string, Json)

  /** A later value of a key replaces an earlier one. */
  function Collect(entries: seq<Pair>): map<string, Json> {
    if entries == [] then map[] else map[entries[0].0 := entries[0].1] + Collect(entries[1..])
  }

  function Built(shape: Shape, entries: seq<Pair>): Json {
    match shape
    case ArrayShape => Array(seq(|entries|, i requires 0 <= i < |entries| => entries[i].1))
    case ObjectShape => Object(Collect(entries))
  }

  function ParseValue(s: string): (r: Parsed<Json>)
    ensures r.Ok? ==> |r.rest| < |s|
    decreases |s|, 3
  {
    match Tag("null", s)
    case Ok(rest, _) => Ok(rest, Null)
    case Failure => Failure
    case Error =>
    match Tag("false", s)
    case Ok(rest, _) => Ok(rest, Bool(false))
    case Failure => Failure
    case Error =>
    match Tag("true", s)
    case Ok(rest, _) => Ok(rest, Bool(true))
    case Failure => Failure
    case Error =>
    match ParseString(s)
    case Ok(rest, cs) => Ok(rest, String(cs))
    case Failure => Failure
    case Error =>
    match ParseNumber(s)
    case Ok(rest, text) => Ok(rest, Number(text))
    case Failure => Failure
    case Error =>
    match ParseList(s, ArrayShape)
    case Ok(rest, entries) => Ok(rest, Built(ArrayShape, entries))
    case Failure => Failure
    case Error =>
    match ParseList(s, ObjectShape)
    case Ok(rest, entries) => Ok(rest, Built(ObjectShape, entries))
    case Failure => Failure
    case Error => Error
  }

  function ParseList(s: string, shape: Shape): (r: Parsed<seq<Pair>>)
    ensures r.Ok? ==> |r.rest| < |s|
    decreases |s|, 2
  {
    match Char(shape.Open(), s)
    case Error => Error
    case Failure => Failure
    case Ok(s1, _) =>
    match Multispace0(s1)
    case Error => Error
    case Failure => Failure
    case Ok(s2, _) =>
    match ParseEntries(s2, shape)
    case Error => Error
    case Failure => Failure
    case Ok(s3, entries) =>
    match Multispace0(s3)
    case Error => Error
    case Failure => Failure
    case Ok(s4, _) =>
    match Char(shape.Close(), s4)
    case Error => Error
    case Failure => Failure
    case Ok(s5, _) => Ok(s5, entries)
  }

  /** `separated_list0(ws(char(',')), ...)` */
  function ParseEntries(s: string, shape: Shape): (r: Parsed<seq<Pair>>)
    ensures r.Ok? ==> |r.rest| <= |s|
    decreases |s|, 5
  {
    match ParseEntry(s, shape)
    case Error => Ok(s, [])
    case Failure => Failure
    case Ok(s1, entry) =>
    match ParseMore(s1, shape)
    case Error => Error
    case Failure => Failure
    case Ok(s2, entries) => Ok(s2, [entry] + entries)
  }

  function ParseMore(s: string, shape: Shape): (r: Parsed<seq<Pair>>)
    ensures r.Ok? ==> |r.rest| <= |s|
    decreases |s|, 0
  {
    match Spaced(',', s)
    case Error => Ok(s, [])
    case Failure => Failure
    case Ok(s1, _) =>
    match ParseEntry(s1, shape)
    case Error => Ok(s, [])
    case Failure => Failure
    case Ok(s2, entry) =>
    match ParseMore(s2, shape)
    case Error => Error
    case Failure => Failure
    case Ok(s3, entries) => Ok(s3, [entry] + entries)
  }

  function ParseEntry(s: string, shape: Shape): (r: Parsed<Pair>)
    ensures r.Ok? ==> |r.rest| < |s|
    decreases |s|, 4
  {
    if shape.ArrayShape? then
      match ParseValue(s)
      case Error => Error
      case Failure => Failure
      case Ok(s1, v) => Ok(s1, ("", v))
    else
      match ParseString(s)
      case Error => Error
      case Failure => Failure
      case Ok(s1, key) =>
      match Spaced(':', s1)
      case Error => Error
      case Failure => Failure
      case Ok(s2, _) =>
      match ParseValue(s2)
      case Error => Error
      case Failure => Failure
      case Ok(s3, v) => Ok(s3, (key, v))
  }
}
