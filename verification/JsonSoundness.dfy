/** Whatever the parser accepts is a document of the grammar, so the grammar says
    exactly which texts are accepted and what they mean. */
module JsonSoundness {
  import opened Json
  import opened JsonGrammar
  import opened JsonRoundTrip

  lemma {:induction false} PadSkipped(s: string) returns (pad: string)
    requires Multispace0(s).Ok?
    ensures IsPad(pad) && s == pad + Multispace0(s).rest
  {
    if IsSpace(s[0]) {
      pad := PadSkipped(s[1..]);
      pad := [s[0]] + pad;
      assert s == [s[0]] + s[1..];
    } else {
      pad := "";
    }
  }

  lemma SpacedSound(c: char, s: string) returns (pre: string, post: string)
    requires Spaced(c, s).Ok?
    ensures IsPad(pre) && IsPad(post) && s == pre + ([c] + (post + Spaced(c, s).rest))
  {
    pre := PadSkipped(s);
    var s1 := Multispace0(s).rest;
    post := PadSkipped(Char(c, s1).rest);
  }

  // --------------------------------------------------------------- strings

  lemma CharacterSound(s: string) returns (p: Piece)
    requires Character(s).Ok?
    ensures GoodPiece(p) && PieceChar(p) == Character(s).value && s == PieceTo(p, Character(s).rest)
  {
    if s[0] != '\\' {
      p := Plain(s[0]);
      assert s == [s[0]] + s[1..];
    } else if IsShortEscape(s[1]) {
      p := Short(s[1]);
      assert s == ['\\', s[1]] + s[1..][1..];
    } else {
      var s2 := s[1..][1..];
      assert s == "\\u" + s2;
      p := UnicodeSound(s2);
    }
  }

  lemma UnicodeSound(s2: string) returns (p: Piece)
    requires UnicodeEscape(s2).Ok?
    ensures GoodPiece(p) && PieceChar(p) == UnicodeEscape(s2).value && "\\u" + s2 == PieceTo(p, UnicodeEscape(s2).rest)
  {
    assert s2 == s2[..4] + s2[4..];
    if !IsSurrogate(U16FromHex(s2[..4])) {
      p := Unit(s2[..4]);
    } else {
      p := PairSound(s2);
    }
  }

  lemma PairSound(s2: string) returns (p: Piece)
    requires SurrogatePair(s2).Ok?
    ensures GoodPiece(p) && PieceChar(p) == SurrogatePair(s2).value && "\\u" + s2 == PieceTo(p, SurrogatePair(s2).rest)
  {
    var s3 := U16Hex(s2).rest;
    var s4 := Tag("\\u", s3).rest;
    p := Surrogates(s2[..4], s4[..4]);
    PairText(s2[..4], s4[..4], s4[4..]);
    assert s2 == s2[..4] + s3 && s4 == s4[..4] + s4[4..];
  }

  lemma PairText(hi: string, lo: string, t: string)
    ensures "\\u" + (hi + ("\\u" + (lo + t))) == PieceTo(Surrogates(hi, lo), t)
  {
  }

  lemma {:induction false} CharactersSound(s: string) returns (ps: seq<Piece>)
    requires Characters(s).Ok?
    ensures GoodPieces(ps) && PiecesText(ps) == Characters(s).value && s == PiecesTo(ps, Characters(s).rest)
    decreases |s|
  {
    if Character(s).Ok? {
      var p := CharacterSound(s);
      var rest := CharactersSound(Character(s).rest);
      ps := [p] + rest;
      assert ps[1..] == rest;
    } else {
      ps := [];
    }
  }

  lemma StringSound(s: string) returns (ps: seq<Piece>)
    requires ParseString(s).Ok?
    ensures GoodPieces(ps) && PiecesText(ps) == ParseString(s).value
    ensures s == ['"'] + PiecesTo(ps, ['"'] + ParseString(s).rest)
  {
    var s1 := Char('"', s).rest;
    ps := CharactersSound(s1);
    assert Characters(s1).rest == ['"'] + ParseString(s).rest;
  }

  // --------------------------------------------------------------- numbers

  lemma NumberSound(s: string)
    requires ParseNumber(s).Ok?
    ensures IsNumber(ParseNumber(s).value) && s == ParseNumber(s).value + ParseNumber(s).rest
    ensures Stops(DNumber(ParseNumber(s).value), ParseNumber(s).rest)
  {
    var text, rest := ParseNumber(s).value, ParseNumber(s).rest;
    var n := DigitCount(s);
    if n == 0 {
      assert false;
    }
    if n < |s| && s[n] == '.' {
      assert text[n] == '.' && text[n] in text;
    }
  }

  // ---------------------------------------------------------------- values

  lemma {:induction false} ValueSound(s: string) returns (d: Doc)
    requires ParseValue(s).Ok?
    ensures GoodDoc(d) && Stops(d, ParseValue(s).rest)
    ensures DocValue(d) == ParseValue(s).value && s == DocTo(d, ParseValue(s).rest)
    decreases |s|, 3
  {
    if Tag("null", s).Ok? {
      d := DNull;
    } else if Tag("false", s).Ok? {
      d := DBool(false);
    } else if Tag("true", s).Ok? {
      d := DBool(true);
    } else if ParseString(s).Ok? {
      var ps := StringSound(s);
      d := DString(ps);
    } else if ParseNumber(s).Ok? {
      NumberSound(s);
      d := DNumber(ParseNumber(s).value);
    } else if ParseList(s, ArrayShape).Ok? {
      d := ListSound(s, ArrayShape);
    } else {
      d := ListSound(s, ObjectShape);
    }
  }

  lemma {:induction false} ListSound(s: string, shape: Shape) returns (d: Doc)
    requires ParseList(s, shape).Ok?
    ensures d.DList? && GoodDoc(d) && d.shape == shape
    ensures EntryValues(shape, d.entries) == ParseList(s, shape).value
    ensures s == DocTo(d, ParseList(s, shape).rest)
    decreases |s|, 2
  {
    var s1 := Char(shape.Open(), s).rest;
    var lead := PadSkipped(s1);
    var s2 := Multispace0(s1).rest;
    var es := EntriesSound(s2, shape);
    var s3 := ParseEntries(s2, shape).rest;
    var trail := PadSkipped(s3);
    d := DList(shape, lead, es, trail);
    assert Multispace0(s3).rest == [shape.Close()] + ParseList(s, shape).rest;
    ListText(s, d, s1, s2, s3, ParseList(s, shape).rest);
  }

  lemma ListText(s: string, d: Doc, s1: string, s2: string, s3: string, rest: string)
    requires d.DList? && s == [d.shape.Open()] + s1 && s1 == d.lead + s2
    requires s2 == EntriesTo(d.shape, d.entries, s3) && s3 == d.trail + ([d.shape.Close()] + rest)
    ensures s == DocTo(d, rest)
  {
  }

  /** What follows an entry: nothing, or a comma with its white space and entries. */
  ghost predicate Continues(shape: Shape, s: string, after: string, next: string, es: seq<Entry>, t: string) {
    && IsPad(after) && IsPad(next) && GoodEntries(shape, es)
    && s == if es == [] then t else after + ([','] + (next + EntriesTo(shape, es, t)))
  }

  /** Puts an entry in front of what continues it. */
  lemma Attach(shape: Shape, s: string, e: Entry, after: string, next: string, es: seq<Entry>, t: string)
    returns (all: seq<Entry>)
    requires GoodEntry(shape, e) && Continues(shape, s, after, next, es, t)
    ensures GoodEntries(shape, all) && all != []
    ensures EntryValues(shape, all) == [EntryValue(shape, e)] + EntryValues(shape, es)
    ensures EntriesTo(shape, all, t) == EntryTo(shape, e, s)
  {
    var e0 := e.(after := after, next := next);
    all := [e0] + es;
    assert all[1..] == es;
    assert MoreTo(shape, all, t) == s;
    assert EntryTo(shape, e0, s) == EntryTo(shape, e, s);
  }

  lemma {:induction false} EntriesSound(s: string, shape: Shape) returns (es: seq<Entry>)
    requires ParseEntries(s, shape).Ok?
    ensures GoodEntries(shape, es) && EntryValues(shape, es) == ParseEntries(s, shape).value
    ensures s == EntriesTo(shape, es, ParseEntries(s, shape).rest)
    decreases |s|, 5
  {
    if ParseEntry(s, shape).Ok? {
      var s1 := ParseEntry(s, shape).rest;
      var e := EntrySound(s, shape);
      var after, next, rest := MoreSound(s1, shape);
      es := Attach(shape, s1, e, after, next, rest, ParseMore(s1, shape).rest);
    } else {
      es := [];
    }
  }

  lemma {:induction false} MoreSound(s: string, shape: Shape) returns (after: string, next: string, es: seq<Entry>)
    requires ParseMore(s, shape).Ok?
    ensures Continues(shape, s, after, next, es, ParseMore(s, shape).rest)
    ensures EntryValues(shape, es) == ParseMore(s, shape).value
    decreases |s|, 0
  {
    var comma := Spaced(',', s);
    if comma.Ok? && ParseEntry(comma.rest, shape).Ok? {
      var s1, entry := comma.rest, ParseEntry(comma.rest, shape);
      var s2 := entry.rest;
      var end := ParseMore(s2, shape);
      assert end.Ok? && ParseMore(s, shape) == Ok(end.rest, [entry.value] + end.value);
      after, next := SpacedSound(',', s);
      var e := EntrySound(s1, shape);
      var a, n, rest := MoreSound(s2, shape);
      es := Attach(shape, s2, e, a, n, rest, ParseMore(s2, shape).rest);
    } else {
      after, next, es := "", "", [];
    }
  }

  lemma {:induction false} EntrySound(s: string, shape: Shape) returns (e: Entry)
    requires ParseEntry(s, shape).Ok?
    ensures GoodEntry(shape, e) && EntryValue(shape, e) == ParseEntry(s, shape).value
    ensures s == EntryTo(shape, e, ParseEntry(s, shape).rest)
    decreases |s|, 4
  {
    if shape.ArrayShape? {
      var d := ValueSound(s);
      e := Entry([], "", "", d, "", "");
    } else {
      var key := StringSound(s);
      var s1 := ParseString(s).rest;
      var pre, post := SpacedSound(':', s1);
      var s2 := Spaced(':', s1).rest;
      var d := ValueSound(s2);
      e := Entry(key, pre, post, d, "", "");
    }
  }

  /** The parser accepts a text and leaves a remainder exactly when the text is a
      document followed by that remainder; the value is the document's. */
  lemma ParsesIff(s: string, rest: string, v: Json)
    ensures ParseValue(s) == Ok(rest, v) <==>
      exists d :: GoodDoc(d) && Stops(d, rest) && s == DocTo(d, rest) && DocValue(d) == v
  {
    if ParseValue(s) == Ok(rest, v) {
      var d := ValueSound(s);
    }
    if d :| GoodDoc(d) && Stops(d, rest) && s == DocTo(d, rest) && DocValue(d) == v {
      ValueReads(d, rest);
    }
  }
}
