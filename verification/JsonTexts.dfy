/** The characters, escapes and brackets of JSON, spelled out. */
module JsonTexts {
  import opened Json
  import opened JsonGrammar
  import opened JsonRoundTrip
  import opened JsonWriter
  import JsonSoundness

  // ------------------------------------------------------------ characters

  lemma CharacterClasses(c: char)
    ensures IsDigit(c) <==> c in "0123456789"
    ensures IsSpace(c) <==> c in " \t\r\n"
    ensures IsShortEscape(c) <==> c in "\"\\/bfnrt"
  {
    if IsDigit(c) {
      assert c == "0123456789"[c as int - 48];
    }
  }

  /** The position of a digit in its alphabet is its value, in either case. */
  lemma HexDigitsMean(i: nat)
    requires i < 16
    ensures HexDigit("0123456789abcdef"[i]) == i && HexDigit("0123456789ABCDEF"[i]) == i
  {
  }

  lemma HexDigitsAre(c: char)
    requires HexDigit(c) >= 0
    ensures c in "0123456789abcdefABCDEF"
  {
    var at := if c <= '9' then c as int - 48 else if c <= 'F' then c as int - 65 + 16 else c as int - 97 + 10;
    assert c == "0123456789abcdefABCDEF"[at];
  }

  /** What each backslash and letter is read as. */
  lemma EscapesRead(t: string)
    ensures Character("\\\"" + t) == Ok(t, '"')
    ensures Character("\\\\" + t) == Ok(t, '\\')
    ensures Character("\\/" + t) == Ok(t, '/')
    ensures Character("\\b" + t) == Ok(t, '\U{0008}')
    ensures Character("\\f" + t) == Ok(t, '\U{000C}')
    ensures Character("\\n" + t) == Ok(t, '\U{000A}')
    ensures Character("\\r" + t) == Ok(t, '\U{000D}')
    ensures Character("\\t" + t) == Ok(t, '\U{0009}')
  {
    hide Character;
    EscapeReads('"', t);
    EscapeReads('\\', t);
    EscapeReads('/', t);
    EscapeReads('b', t);
    EscapeReads('f', t);
    EscapeReads('n', t);
    EscapeReads('r', t);
    EscapeReads('t', t);
  }

  lemma EscapeReads(letter: char, t: string)
    requires letter in "\"\\/bfnrt"
    ensures Character(['\\', letter] + t) == Ok(t, ShortEscape(letter))
  {
    PieceReads(Short(letter), t);
  }

  /** Four hexadecimal digits after `\u`: every number outside the surrogates is the code
      point that is read, and a high one needs a low one behind it. */
  lemma UnitReads(hex: string, t: string)
    requires |hex| == 4 && 0 <= U16FromHex(hex)
    ensures U16FromHex(hex) < 55296 || 57344 <= U16FromHex(hex) ==>
      Character("\\u" + hex + t) == Ok(t, U16FromHex(hex) as char)
  {
    if U16FromHex(hex) < 55296 || 57344 <= U16FromHex(hex) {
      PieceReads(Unit(hex), t);
    }
  }

  lemma SurrogatesRead(hi: string, lo: string, t: string)
    requires |hi| == 4 && |lo| == 4
    requires 55296 <= U16FromHex(hi) < 56320 <= U16FromHex(lo) < 57344
    ensures Character("\\u" + hi + ("\\u" + lo + t)) ==
      Ok(t, ((U16FromHex(hi) - 55296) * 1024 + (U16FromHex(lo) - 56320) + 65536) as char)
  {
    PieceReads(Surrogates(hi, lo), t);
  }

  /** Three digits behind a plus sign are taken as well, as their number. */
  lemma SignedUnit(digits: string, t: string)
    requires |digits| == 3 && 0 <= HexDigits(digits)
    ensures Character("\\u" + (['+'] + digits) + t) == Ok(t, HexDigits(digits) as char)
  {
    assert (['+'] + digits)[1..] == digits;
    UnitReads(['+'] + digits, t);
  }

  // ---------------------------------------------------------------- values

  lemma WordsRead(t: string)
    ensures ParseValue("null" + t) == Ok(t, Null)
    ensures ParseValue("true" + t) == Ok(t, Bool(true))
    ensures ParseValue("false" + t) == Ok(t, Bool(false))
  {
    ValueReads(DNull, t);
    ValueReads(DBool(true), t);
    ValueReads(DBool(false), t);
  }

  /** Decimals are `0` or digits that do not begin with it, alone or with a dot and more
      digits; the number library has the last word. */
  lemma DecimalsRead(a: string, b: string, t: string)
    requires a == "0" || (a != "" && AllDigits(a) && a[0] != '0')
    requires AllDigits(b) && b != "" && (t == "" || (!IsDigit(t[0]) && t[0] != '.'))
    ensures REPRESENTABLE(a) ==> ParseValue(a + t) == Ok(t, Number(a))
    ensures REPRESENTABLE(a + ("." + b)) ==> ParseValue((a + ("." + b)) + t) == Ok(t, Number(a + ("." + b)))
  {
    CountDigits(a, "");
    CountDigits(a, "." + b);
    assert a + "" == a;
    var text := a + ("." + b);
    assert text[|a|] == '.' && text[|a| + 1..] == b;
    if REPRESENTABLE(a) {
      ValueReads(DNumber(a), t);
    }
    if REPRESENTABLE(text) {
      ValueReads(DNumber(text), t);
    }
  }

  /** Nothing else is read as a number: no sign, no leading zero, no bare dot. */
  lemma NumbersRead(s: string, rest: string, t: string)
    requires ParseValue(s) == Ok(rest, Number(t))
    ensures s == t + rest && t != "" && REPRESENTABLE(t)
    ensures t[0] in "0123456789" && (t[0] == '0' && |t| > 1 ==> t[1] == '.')
    ensures t[|t| - 1] in "0123456789"
    ensures forall i :: 0 <= i < |t| ==> t[i] in ".0123456789"
  {
    var d := JsonSoundness.ValueSound(s);
    assert d == DNumber(t);
    DecimalMeans(t);
  }

  lemma DecimalMeans(t: string)
    requires IsDecimal(t)
    ensures t != "" && t[0] in "0123456789" && (t[0] == '0' && |t| > 1 ==> t[1] == '.')
    ensures t[|t| - 1] in "0123456789"
    ensures forall i :: 0 <= i < |t| ==> t[i] in ".0123456789"
  {
    var n := DigitCount(t);
    forall i | 0 <= i < |t| && i != n ensures t[i] in "0123456789" {
      CharacterClasses(t[i]);
      if i < n {
        assert t[i] == t[..n][i];
      } else {
        assert t[i] == t[n + 1..][i - n - 1];
      }
    }
  }

  /** A text that ends where a value could still go on is no value, and not one of some
      other kind either. */
  lemma CutShort(n: nat)
    ensures n < 4 ==> ParseValue("null"[..n]) == Failure && ParseValue("true"[..n]) == Failure
    ensures n < 5 ==> ParseValue("false"[..n]) == Failure
  {
    assert n < 4 ==> "null"[..n] <= "null" && "true"[..n] <= "true";
    assert n < 5 ==> "false"[..n] <= "false";
    assert 0 < n < 5 ==> "false"[..n][0] == 'f' && !("null" <= "false"[..n]) && !("false"[..n] <= "null");
  }

  /** Arrays stand in square brackets and objects in curly ones, entries apart by commas and
      values from keys by colons. */
  lemma BracketsRead(t: string)
    ensures ParseValue("[]" + t) == Ok(t, Array([]))
    ensures ParseValue("{}" + t) == Ok(t, Object(map[]))
  {
    hide ParseValue;
    RoundTrip(Array([]), t);
    EmptyTexts(t);
    RoundTrip(Object(map[]), t);
  }

  /** A list without padding is its entries between its brackets. */
  lemma ListText(shape: Shape, es: seq<Entry>, t: string)
    ensures DocTo(DList(shape, "", es, ""), t) == [shape.Open()] + EntriesTo(shape, es, [shape.Close()] + t)
  {
    hide EntriesTo;
    assert "" + ([shape.Close()] + t) == [shape.Close()] + t;
  }

  lemma NoEntries(shape: Shape, t: string)
    ensures EntriesTo(shape, [], t) == t
  {
  }

  lemma EmptyTexts(t: string)
    ensures DocTo(WriteDoc(Array([])), t) == "[]" + t
    ensures DocTo(WriteDoc(Object(map[])), t) == "{}" + t
  {
    hide DocTo, EntriesTo;
    assert WriteDoc(Array([])) == DList(ArrayShape, "", [], "");
    assert WriteDoc(Object(map[])) == DList(ObjectShape, "", [], "");
    ListText(ArrayShape, [], t);
    NoEntries(ArrayShape, "]" + t);
    ListText(ObjectShape, [], t);
    NoEntries(ObjectShape, "}" + t);
    assert "[" + ("]" + t) == "[]" + t && "{" + ("}" + t) == "{}" + t;
  }

  lemma PairRead(x: Json, y: Json, t: string)
    requires Writable(x) && Writable(y)
    ensures ParseValue("[" + DocTo(WriteDoc(x), "," + DocTo(WriteDoc(y), "]" + t))) == Ok(t, Array([x, y]))
  {
    hide ParseValue;
    RoundTrip(Array([x, y]), t);
    PairText(x, y, t);
  }

  lemma PairText(x: Json, y: Json, t: string)
    ensures DocTo(WriteDoc(Array([x, y])), t) == "[" + DocTo(WriteDoc(x), "," + DocTo(WriteDoc(y), "]" + t))
  {
    hide DocTo, EntriesTo, WriteDoc;
    var e, f := Entry([], "", "", WriteDoc(x), "", ""), Entry([], "", "", WriteDoc(y), "", "");
    PairWritten(x, y, e, f);
    ListText(ArrayShape, [e, f], t);
    PairEntries(e, f, "]" + t);
  }

  lemma PairWritten(x: Json, y: Json, e: Entry, f: Entry)
    requires e == Entry([], "", "", WriteDoc(x), "", "") && f == Entry([], "", "", WriteDoc(y), "", "")
    ensures WriteDoc(Array([x, y])) == DList(ArrayShape, "", [e, f], "")
  {
    assert [x, y][1..] == [y] && [y][1..] == [];
    assert WriteItems([]) == [];
    assert WriteItems([y]) == [f];
    assert WriteItems([x, y]) == [e, f];
  }

  lemma PairEntries(e: Entry, f: Entry, t: string)
    requires e.after == "" && e.next == ""
    ensures EntriesTo(ArrayShape, [e, f], t) == DocTo(e.value, "," + DocTo(f.value, t))
  {
    hide DocTo;
    assert [e, f][1..] == [f];
    assert EntriesTo(ArrayShape, [f], t) == DocTo(f.value, t);
    assert MoreTo(ArrayShape, [e, f], t) == "" + ([','] + ("" + DocTo(f.value, t)));
    assert "" + ([','] + ("" + DocTo(f.value, t))) == "," + DocTo(f.value, t);
  }

  lemma MemberRead(k: string, x: Json, t: string)
    requires Writable(x)
    ensures ParseValue("{\"" + PiecesTo(WritePieces(k), "\":" + DocTo(WriteDoc(x), "}" + t))) == Ok(t, Object(map[k := x]))
  {
    var e := Entry(WritePieces(k), "", "", WriteDoc(x), "", "");
    var d := DList(ObjectShape, "", [e], "");
    WrittenPiecesRead(k);
    WrittenDocMeans(x);
    MemberText(e, t);
    MemberMeans(e, k, x);
    ValueReads(d, t);
  }

  lemma MemberText(e: Entry, t: string)
    requires e.pre == "" && e.post == ""
    ensures DocTo(DList(ObjectShape, "", [e], ""), t) == "{\"" + PiecesTo(e.key, "\":" + DocTo(e.value, "}" + t))
  {
    hide DocTo, PiecesTo, EntriesTo, EntryTo;
    ListText(ObjectShape, [e], t);
    OneEntry(e, "}" + t);
    var rest := PiecesTo(e.key, "\":" + DocTo(e.value, "}" + t));
    assert "{" + ("\"" + rest) == "{\"" + rest;
  }

  lemma OneEntry(e: Entry, t: string)
    requires e.pre == "" && e.post == ""
    ensures EntriesTo(ObjectShape, [e], t) == "\"" + PiecesTo(e.key, "\":" + DocTo(e.value, t))
  {
    hide DocTo, PiecesTo;
    assert MoreTo(ObjectShape, [e], t) == t;
    assert ['"'] + ("" + ([':'] + ("" + DocTo(e.value, t)))) == "\":" + DocTo(e.value, t);
  }

  lemma MemberMeans(e: Entry, k: string, x: Json)
    requires e.pre == "" && e.post == "" && e.after == "" && e.next == "" && GoodPieces(e.key) && PiecesText(e.key) == k
    requires GoodDoc(e.value) && DocValue(e.value) == x
    ensures var d := DList(ObjectShape, "", [e], ""); GoodDoc(d) && DocValue(d) == Object(map[k := x])
  {
    assert GoodEntry(ObjectShape, e);
    assert [e][1..] == [] && GoodEntries(ObjectShape, []);
    assert GoodEntries(ObjectShape, [e]);
    assert EntryValues(ObjectShape, [e]) == [(k, x)];
    assert [(k, x)][1..] == [] && Collect([]) == map[];
    assert Collect([(k, x)]) == map[k := x];
  }

  predicate IsLast(entries: seq<Pair>, i: int, k: string) {
    0 <= i < |entries| && entries[i].0 == k && forall j :: i < j < |entries| ==> entries[j].0 != k
  }

  /** A later value of a key replaces an earlier one, and no key is lost. */
  lemma {:induction false} LastValueCounts(entries: seq<Pair>, k: string)
    ensures k in Collect(entries) <==> exists i :: 0 <= i < |entries| && entries[i].0 == k
    ensures forall i :: IsLast(entries, i, k) ==> Collect(entries)[k] == entries[i].1
  {
    if entries != [] {
      LastValueCounts(entries[1..], k);
      assert forall i :: 1 <= i < |entries| ==> entries[i] == entries[1..][i - 1];
      if k in Collect(entries[1..]) {
        var i :| 0 <= i < |entries[1..]| && entries[1..][i].0 == k;
        assert entries[i + 1].0 == k;
      }
      forall i | IsLast(entries, i, k) ensures Collect(entries)[k] == entries[i].1 {
        if i > 0 {
          assert IsLast(entries[1..], i - 1, k);
        }
      }
    }
  }

  // --------------------------------------------- what is read can be written

  lemma {:induction false} DocsAreWritable(d: Doc)
    requires GoodDoc(d)
    ensures Writable(DocValue(d))
    decreases d, 0
  {
    if d.DList? {
      EntriesAreWritable(d.shape, d.entries);
      var vs := EntryValues(d.shape, d.entries);
      if d.shape.ObjectShape? {
        CollectedAreWritable(vs);
      }
    }
  }

  lemma {:induction false} EntriesAreWritable(shape: Shape, es: seq<Entry>)
    requires GoodEntries(shape, es)
    ensures forall i :: 0 <= i < |EntryValues(shape, es)| ==> Writable(EntryValues(shape, es)[i].1)
    decreases es, 1
  {
    if es != [] {
      DocsAreWritable(es[0].value);
      EntriesAreWritable(shape, es[1..]);
    }
  }

  lemma {:induction false} CollectedAreWritable(entries: seq<Pair>)
    requires forall i :: 0 <= i < |entries| ==> Writable(entries[i].1)
    ensures forall k :: k in Collect(entries) ==> Writable(Collect(entries)[k])
  {
    if entries != [] {
      CollectedAreWritable(entries[1..]);
    }
  }

  /** Whatever is read can be printed, and is then read back. */
  lemma ReadPrintsBack(s: string)
    requires ParseValue(s).Ok?
    ensures var v := ParseValue(s).value; Writable(v) && ParseValue(DocTo(WriteDoc(v), "")) == Ok("", v)
  {
    var d := JsonSoundness.ValueSound(s);
    DocsAreWritable(d);
    RoundTrip(ParseValue(s).value, "");
  }
}
