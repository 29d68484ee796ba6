/** Writing a value so that the parser reads the same value back. */
module JsonWriter {
  import opened Json
  import opened JsonGrammar
  import opened JsonRoundTrip

  function HexChar(v: int): (c: char)
    requires 0 <= v < 16
    ensures HexDigit(c) == v
  {
    if v < 10 then ('0' as int + v) as char else ('a' as int + v - 10) as char
  }

  /** Four lower-case hexadecimal digits. */
  function Hex4(v: int): (t: string)
    requires 0 <= v < 0x10000
    ensures |t| == 4
  {
    [HexChar(v / 0x1000), HexChar(v / 0x100 % 16), HexChar(v / 0x10 % 16), HexChar(v % 16)]
  }

  lemma Hex4ReadsBack(v: int)
    requires 0 <= v < 0x10000
    ensures U16FromHex(Hex4(v)) == v
  {
    FourDigits(HexChar(v / 0x1000), HexChar(v / 0x100 % 16), HexChar(v / 0x10 % 16), HexChar(v % 16));
    DigitsAddUp(v);
  }

  lemma FourDigits(a: char, b: char, c: char, d: char)
    requires HexDigit(a) >= 0 && HexDigit(b) >= 0 && HexDigit(c) >= 0 && HexDigit(d) >= 0
    ensures U16FromHex([a, b, c, d]) == 16 * (16 * (16 * HexDigit(a) + HexDigit(b)) + HexDigit(c)) + HexDigit(d)
  {
    var t := [a, b, c, d];
    assert t[..3] == [a, b, c] && t[..3][..2] == [a, b] && t[..3][..2][..1] == [a] && [a][..0] == "";
    assert HexDigits([a]) == HexDigit(a);
    assert HexDigits([a, b]) == 16 * HexDigit(a) + HexDigit(b);
    assert HexDigits([a, b, c]) == 16 * HexDigits([a, b]) + HexDigit(c);
  }

  lemma DigitsAddUp(v: int)
    requires 0 <= v < 0x10000
    ensures 16 * (16 * (16 * (v / 0x1000) + v / 0x100 % 16) + v / 0x10 % 16) + v % 16 == v
  {
    assert v / 0x10 == 16 * (v / 0x100) + v / 0x10 % 16;
    assert v / 0x100 == 16 * (v / 0x1000) + v / 0x100 % 16;
  }

  /** Quotes and backslashes by letter, control characters by code, characters outside
      the basic plane as surrogate pairs. */
  function WritePiece(c: char): Piece {
    if c == '"' || c == '\\' then Short(c)
    else if c as int < 0x20 then Unit(Hex4(c as int))
    else if c as int < 0x10000 then Plain(c)
    else
      var v := c as int - 0x10000;
      Surrogates(Hex4(0xD800 + v / 0x400), Hex4(0xDC00 + v % 0x400))
  }

  lemma SurrogatesRead(high: int, low: int)
    requires IsHigh(high) && IsLow(low)
    ensures var p := Surrogates(Hex4(high), Hex4(low)); GoodPiece(p) && PieceChar(p) == Combine(high, low)
  {
    Hex4ReadsBack(high);
    Hex4ReadsBack(low);
  }

  lemma SplitCombines(c: char)
    requires c as int >= 0x10000
    ensures var v := c as int - 0x10000;
      IsHigh(0xD800 + v / 0x400) && IsLow(0xDC00 + v % 0x400) && Combine(0xD800 + v / 0x400, 0xDC00 + v % 0x400) == c
  {
  }

  /** Splitting a code point into surrogates and combining them again loses nothing. */
  lemma WrittenPieceReads(c: char)
    ensures GoodPiece(WritePiece(c)) && PieceChar(WritePiece(c)) == c
  {
    if c as int < 0x20 {
      Hex4ReadsBack(c as int);
    } else if c as int >= 0x10000 {
      var v := c as int - 0x10000;
      SplitCombines(c);
      SurrogatesRead(0xD800 + v / 0x400, 0xDC00 + v % 0x400);
    }
  }

  function WritePieces(s: string): seq<Piece> {
    if s == "" then [] else [WritePiece(s[0])] + WritePieces(s[1..])
  }

  lemma {:induction false} WrittenPiecesRead(s: string)
    ensures GoodPieces(WritePieces(s)) && PiecesText(WritePieces(s)) == s
  {
    if s != "" {
      WrittenPieceReads(s[0]);
      WrittenPiecesRead(s[1..]);
      assert WritePieces(s)[1..] == WritePieces(s[1..]);
    }
  }

  /** Every number in the value is an unsigned decimal that the number library takes. */
  ghost predicate Writable(v: Json)
    decreases v
  {
    match v
    case Number(text) => IsNumber(text)
    case Array(items) => forall x :: x in items ==> Writable(x)
    case Object(fields) => forall k :: k in fields ==> Writable(fields[k])
    case _ => true
  }

  ghost function WriteDoc(v: Json): Doc
    decreases v, 1
  {
    match v
    case Null => DNull
    case Bool(b) => DBool(b)
    case Number(text) => DNumber(text)
    case String(s) => DString(WritePieces(s))
    case Array(items) => DList(ArrayShape, "", WriteItems(items), "")
    case Object(fields) => DList(ObjectShape, "", WriteFields(v, fields.Keys), "")
  }

  ghost function WriteItems(items: seq<Json>): seq<Entry>
    decreases items, 0
  {
    if items == [] then [] else [Entry([], "", "", WriteDoc(items[0]), "", "")] + WriteItems(items[1..])
  }

  ghost function WriteFields(v: Json, keys: set<string>): seq<Entry>
    requires v.Object? && keys <= v.fields.Keys
    decreases v, 0, |keys|
  {
    if keys == {} then []
    else
      var k :| k in keys;
      [Entry(WritePieces(k), "", "", WriteDoc(v.fields[k]), "", "")] + WriteFields(v, keys - {k})
  }

  lemma {:induction false} WrittenDocMeans(v: Json)
    requires Writable(v)
    ensures GoodDoc(WriteDoc(v)) && DocValue(WriteDoc(v)) == v
    decreases v, 1
  {
    match v {
      case String(s) => WrittenPiecesRead(s);
      case Array(items) => WrittenItemsMean(items);
      case Object(fields) =>
        WrittenFieldsMean(v, fields.Keys);
        assert (map k | k in fields.Keys :: fields[k]) == fields;
      case _ =>
    }
  }

  lemma {:induction false} WrittenItemsMean(items: seq<Json>)
    requires forall x :: x in items ==> Writable(x)
    ensures GoodEntries(ArrayShape, WriteItems(items))
    ensures Built(ArrayShape, EntryValues(ArrayShape, WriteItems(items))) == Array(items)
    decreases items, 0
  {
    if items != [] {
      WrittenDocMeans(items[0]);
      WrittenItemsMean(items[1..]);
      var es, rest := WriteItems(items), WriteItems(items[1..]);
      assert es[1..] == rest;
      assert GoodEntry(ArrayShape, es[0]) && EntryValue(ArrayShape, es[0]) == ("", items[0]);
      var vs, ws := EntryValues(ArrayShape, es), EntryValues(ArrayShape, rest);
      assert vs == [("", items[0])] + ws;
      assert Built(ArrayShape, ws).items == items[1..];
      assert Built(ArrayShape, vs).items == [items[0]] + Built(ArrayShape, ws).items;
    }
  }

  lemma {:induction false} WrittenFieldsMean(v: Json, keys: set<string>)
    requires Writable(v) && v.Object? && keys <= v.fields.Keys
    ensures GoodEntries(ObjectShape, WriteFields(v, keys))
    ensures Collect(EntryValues(ObjectShape, WriteFields(v, keys))) == map k | k in keys :: v.fields[k]
    decreases v, 0, |keys|
  {
    if keys != {} {
      var es := WriteFields(v, keys);
      var k :| k in keys && es == [Entry(WritePieces(k), "", "", WriteDoc(v.fields[k]), "", "")] + WriteFields(v, keys - {k});
      WrittenPiecesRead(k);
      WrittenDocMeans(v.fields[k]);
      WrittenFieldsMean(v, keys - {k});
      WrittenFieldMeans(k, v.fields[k], WriteFields(v, keys - {k}));
      FieldAdded(v.fields, keys, k);
    }
  }

  lemma FieldAdded(fields: map<string, Json>, keys: set<string>, k: string)
    requires k in keys && keys <= fields.Keys
    ensures map[k := fields[k]] + (map j | j in keys - {k} :: fields[j]) == map j | j in keys :: fields[j]
  {
  }

  lemma WrittenFieldMeans(k: string, x: Json, es: seq<Entry>)
    requires GoodPieces(WritePieces(k)) && PiecesText(WritePieces(k)) == k
    requires GoodDoc(WriteDoc(x)) && DocValue(WriteDoc(x)) == x && GoodEntries(ObjectShape, es)
    ensures var all := [Entry(WritePieces(k), "", "", WriteDoc(x), "", "")] + es;
      GoodEntries(ObjectShape, all)
      && Collect(EntryValues(ObjectShape, all)) == map[k := x] + Collect(EntryValues(ObjectShape, es))
  {
    var e := Entry(WritePieces(k), "", "", WriteDoc(x), "", "");
    var all := [e] + es;
    assert all[1..] == es && GoodEntry(ObjectShape, e) && EntryValue(ObjectShape, e) == (k, x);
    var vs := EntryValues(ObjectShape, all);
    assert vs[0] == (k, x) && vs[1..] == EntryValues(ObjectShape, es);
  }

  /** Every value of unsigned numbers is read back from its written form, with any tail
      left over that a number does not run into. */
  lemma RoundTrip(v: Json, t: string)
    requires Writable(v)
    requires v.Number? && t != "" ==> !IsDigit(t[0]) && t[0] != '.'
    ensures ParseValue(DocTo(WriteDoc(v), t)) == Ok(t, v)
  {
    WrittenDocMeans(v);
    ValueReads(WriteDoc(v), t);
  }
}
