/** The parser reads every document of the grammar back, whatever follows it. */
module JsonRoundTrip {
  import opened Json
  import opened JsonGrammar

  // ------------------------------------------------------------ primitives

  lemma {:induction false} SkipPad(pad: string, t: string)
    requires IsPad(pad) && t != "" && !IsSpace(t[0])
    ensures Multispace0(pad + t) == Ok(t, ())
  {
    if pad == "" {
      assert pad + t == t;
    } else {
      assert (pad + t)[1..] == pad[1..] + t;
      SkipPad(pad[1..], t);
    }
  }

  lemma SpacedReads(c: char, pre: string, post: string, t: string)
    requires IsPad(pre) && IsPad(post) && !IsSpace(c) && t != "" && !IsSpace(t[0])
    ensures Spaced(c, pre + ([c] + (post + t))) == Ok(t, ())
  {
    SkipPad(pre, [c] + (post + t));
    assert ([c] + (post + t))[1..] == post + t;
    SkipPad(post, t);
  }

  lemma {:induction false} CountDigits(a: string, t: string)
    requires AllDigits(a) && (t == "" || !IsDigit(t[0]))
    ensures DigitCount(a + t) == |a|
  {
    if a == "" {
      assert a + t == t;
    } else {
      assert (a + t)[1..] == a[1..] + t;
      CountDigits(a[1..], t);
    }
  }

  lemma SpanAtDot(s: string, n: nat)
    requires DigitCount(s) == n && 0 < n < |s| && s[n] == '.'
    ensures var m := n + 1 + DigitCount(s[n + 1..]); NumberSpan(s) == Ok(s[m..], s[..m])
  {
  }

  lemma FractionText(a: string, b: string, t: string)
    ensures var text := a + (['.'] + b);
      && text + t == a + (['.'] + (b + t))
      && (text + t)[|a|] == '.' && (text + t)[|a| + 1..] == b + t
      && (text + t)[..|text|] == text && (text + t)[|text|..] == t
  {
  }

  /** Digits and a dot before more digits. */
  lemma FractionReads(a: string, b: string, t: string)
    requires a != "" && AllDigits(a) && b != "" && AllDigits(b) && (t == "" || !IsDigit(t[0]))
    ensures NumberSpan((a + (['.'] + b)) + t) == Ok(t, a + (['.'] + b))
  {
    FractionText(a, b, t);
    CountDigits(a, ['.'] + (b + t));
    CountDigits(b, t);
    SpanAtDot((a + (['.'] + b)) + t, |a|);
  }

  lemma WholeReads(a: string, t: string)
    requires a != "" && AllDigits(a) && (t == "" || (!IsDigit(t[0]) && t[0] != '.'))
    ensures NumberSpan(a + t) == Ok(t, a)
  {
    CountDigits(a, t);
    assert (a + t)[..|a|] == a && (a + t)[|a|..] == t;
  }

  lemma NumberReads(text: string, t: string)
    requires IsNumber(text) && Stops(DNumber(text), t)
    ensures NumberSpan(text + t) == Ok(t, text)
  {
    var n := DigitCount(text);
    if n == |text| {
      assert text[..n] == text;
      assert '.' !in text;
      WholeReads(text, t);
    } else {
      assert text[n] in text;
      assert text == text[..n] + (['.'] + text[n + 1..]);
      FractionReads(text[..n], text[n + 1..], t);
    }
  }

  // --------------------------------------------------------------- strings

  lemma HexReads(hex: string, t: string)
    requires |hex| == 4 && U16FromHex(hex) >= 0
    ensures U16Hex(hex + t) == Ok(t, U16FromHex(hex))
  {
    assert (hex + t)[..4] == hex && (hex + t)[4..] == t;
  }

  lemma PieceReads(p: Piece, t: string)
    requires GoodPiece(p)
    ensures Character(PieceTo(p, t)) == Ok(t, PieceChar(p))
  {
    var s := PieceTo(p, t);
    match p {
      case Plain(c) =>
      case Short(letter) =>
        assert s[1..] == [letter] + t;
      case Unit(hex) =>
        assert s[1..] == ['u'] + (hex + t);
        assert s[1..][1..] == hex + t;
        HexReads(hex, t);
      case Surrogates(hi, lo) =>
        var s2 := "\\u" + lo + t;
        assert s[1..] == ['u'] + (hi + s2);
        assert s[1..][1..] == hi + s2;
        PairReads(hi, lo, t);
    }
  }

  lemma PairReads(hi: string, lo: string, t: string)
    requires GoodPiece(Surrogates(hi, lo))
    ensures UnicodeEscape(hi + ("\\u" + lo + t)) == Ok(t, Combine(U16FromHex(hi), U16FromHex(lo)))
  {
    var s2 := "\\u" + lo + t;
    HexReads(hi, s2);
    assert s2 == "\\u" + (lo + t);
    assert s2[2..] == lo + t;
    HexReads(lo, t);
  }

  lemma {:induction false} PiecesRead(ps: seq<Piece>, t: string)
    requires GoodPieces(ps)
    ensures Characters(PiecesTo(ps, ['"'] + t)) == Ok(['"'] + t, PiecesText(ps))
  {
    if ps != [] {
      PieceReads(ps[0], PiecesTo(ps[1..], ['"'] + t));
      PiecesRead(ps[1..], t);
    }
  }

  lemma StringReads(ps: seq<Piece>, t: string)
    requires GoodPieces(ps)
    ensures ParseString(['"'] + PiecesTo(ps, ['"'] + t)) == Ok(t, PiecesText(ps))
  {
    var inner := PiecesTo(ps, ['"'] + t);
    assert (['"'] + inner)[1..] == inner;
    PiecesRead(ps, t);
    assert (['"'] + t)[1..] == t;
  }

  // ---------------------------------------------------------------- values

  /** Which alternative a text belongs to is decided by its first character. */
  lemma FirstCharDecides(s: string)
    requires s != ""
    ensures s[0] != 'n' ==> Tag("null", s).Error?
    ensures s[0] != 'f' ==> Tag("false", s).Error?
    ensures s[0] != 't' ==> Tag("true", s).Error?
    ensures s[0] != '"' ==> ParseString(s).Error?
    ensures !IsDigit(s[0]) && s[0] != '.' ==> ParseNumber(s).Error?
    ensures s[0] != '[' ==> ParseList(s, ArrayShape).Error?
    ensures s[0] != '{' ==> ParseList(s, ObjectShape).Error?
  {
  }

  predicate StartsValue(c: char) {
    c == 'n' || c == 'f' || c == 't' || c == '"' || IsDigit(c) || c == '[' || c == '{'
  }

  lemma DocStarts(d: Doc, t: string)
    requires GoodDoc(d)
    ensures DocTo(d, t) != "" && StartsValue(DocTo(d, t)[0]) && !IsSpace(DocTo(d, t)[0])
  {
  }

  lemma EntryStarts(shape: Shape, e: Entry, t: string)
    requires GoodEntry(shape, e)
    ensures EntryTo(shape, e, t) != "" && !IsSpace(EntryTo(shape, e, t)[0])
  {
    DocStarts(e.value, t);
  }

  lemma NoEntryAtClose(shape: Shape, t: string)
    ensures ParseEntry([shape.Close()] + t, shape).Error?
  {
    FirstCharDecides([shape.Close()] + t);
  }

  /** The text after an entry: never a digit or a dot. */
  predicate Follows(t: string) {
    t != "" && !IsDigit(t[0]) && t[0] != '.'
  }

  lemma PadThenFollows(pad: string, t: string)
    requires IsPad(pad) && Follows(t)
    ensures Follows(pad + t)
  {
  }

  lemma MoreFollows(shape: Shape, es: seq<Entry>, t: string)
    requires es != [] && GoodEntries(shape, es) && Follows(t)
    ensures Follows(MoreTo(shape, es, t))
  {
    if |es| > 1 {
      PadThenFollows(es[0].after, [','] + (es[0].next + EntriesTo(shape, es[1..], t)));
    }
  }

  lemma StringValue(s: string)
    requires s != "" && s[0] == '"' && ParseString(s).Ok?
    ensures ParseValue(s) == Ok(ParseString(s).rest, String(ParseString(s).value))
  {
    FirstCharDecides(s);
  }

  lemma NumberValue(s: string)
    requires s != "" && IsDigit(s[0]) && ParseNumber(s).Ok?
    ensures ParseValue(s) == Ok(ParseNumber(s).rest, Number(ParseNumber(s).value))
  {
    FirstCharDecides(s);
  }

  lemma ListValue(s: string, shape: Shape)
    requires s != "" && s[0] == shape.Open() && ParseList(s, shape).Ok?
    ensures ParseValue(s) == Ok(ParseList(s, shape).rest, Built(shape, ParseList(s, shape).value))
  {
    FirstCharDecides(s);
  }

  lemma WordReads(d: Doc, t: string)
    requires d.DNull? || d.DBool?
    ensures ParseValue(DocTo(d, t)) == Ok(t, DocValue(d))
  {
    var s := DocTo(d, t);
    FirstCharDecides(s);
    match d {
      case DNull => assert s[4..] == t;
      case DBool(b) =>
        if b {
          assert s[4..] == t;
        } else {
          assert s[5..] == t;
        }
    }
  }

  lemma {:induction false} ValueReads(d: Doc, t: string)
    requires GoodDoc(d) && Stops(d, t)
    ensures ParseValue(DocTo(d, t)) == Ok(t, DocValue(d))
    decreases d, 0
  {
    match d {
      case DNull => WordReads(d, t);
      case DBool(_) => WordReads(d, t);
      case DNumber(text) =>
        NumberReads(text, t);
        NumberValue(text + t);
      case DString(ps) =>
        StringReads(ps, t);
        StringValue(DocTo(d, t));
      case DList(shape, _, _, _) =>
        ListReads(d, t);
        ListValue(DocTo(d, t), shape);
    }
  }

  /** The five steps of reading a bracketed list. */
  lemma ListSteps(s: string, shape: Shape, s1: string, s2: string, entries: seq<Pair>, s3: string, t: string)
    requires s == [shape.Open()] + s1
    requires Multispace0(s1) == Ok(s2, ())
    requires ParseEntries(s2, shape) == Ok(s3, entries)
    requires Multispace0(s3) == Ok([shape.Close()] + t, ())
    ensures ParseList(s, shape) == Ok(t, entries)
  {
    assert s[1..] == s1;
    assert ([shape.Close()] + t)[1..] == t;
  }

  lemma {:induction false} ListReads(d: Doc, t: string)
    requires d.DList? && GoodDoc(d)
    ensures ParseList(DocTo(d, t), d.shape) == Ok(t, EntryValues(d.shape, d.entries))
    decreases d, -1
  {
    var DList(shape, lead, es, trail) := d;
    var end := [shape.Close()] + t;
    var inner := EntriesTo(shape, es, trail + end);
    if es == [] {
      assert lead + inner == (lead + trail) + end;
      SkipPad(lead + trail, end);
      NoEntryAtClose(shape, t);
      SkipPad("", end);
      assert "" + end == end;
      ListSteps(DocTo(d, t), shape, lead + inner, end, [], end, t);
    } else {
      EntryStarts(shape, es[0], MoreTo(shape, es, trail + end));
      SkipPad(lead, inner);
      EntriesRead(shape, es, trail, t);
      SkipPad(trail, end);
      ListSteps(DocTo(d, t), shape, lead + inner, inner, EntryValues(shape, es), trail + end, t);
    }
  }

  lemma {:induction false} EntriesRead(shape: Shape, es: seq<Entry>, trail: string, t: string)
    requires es != [] && GoodEntries(shape, es) && IsPad(trail)
    ensures var end := trail + ([shape.Close()] + t);
      ParseEntries(EntriesTo(shape, es, end), shape) == Ok(end, EntryValues(shape, es))
    decreases es, 1
  {
    var end := trail + ([shape.Close()] + t);
    PadThenFollows(trail, [shape.Close()] + t);
    MoreFollows(shape, es, end);
    EntryReads(shape, es[0], MoreTo(shape, es, end));
    MoreRead(shape, es, trail, t);
  }

  lemma {:induction false} MoreRead(shape: Shape, es: seq<Entry>, trail: string, t: string)
    requires es != [] && GoodEntries(shape, es) && IsPad(trail)
    ensures var end := trail + ([shape.Close()] + t);
      ParseMore(MoreTo(shape, es, end), shape) == Ok(end, EntryValues(shape, es[1..]))
    decreases es, 0
  {
    var end := trail + ([shape.Close()] + t);
    if |es| == 1 {
      SkipPad(trail, [shape.Close()] + t);
      assert es[1..] == [];
    } else {
      var rest := es[1..];
      var inner := EntriesTo(shape, rest, end);
      EntryStarts(shape, rest[0], MoreTo(shape, rest, end));
      SpacedReads(',', es[0].after, es[0].next, inner);
      PadThenFollows(trail, [shape.Close()] + t);
      MoreFollows(shape, rest, end);
      EntryReads(shape, rest[0], MoreTo(shape, rest, end));
      MoreRead(shape, rest, trail, t);
    }
  }

  lemma {:induction false} EntryReads(shape: Shape, e: Entry, t: string)
    requires GoodEntry(shape, e) && Follows(t)
    ensures ParseEntry(EntryTo(shape, e, t), shape) == Ok(t, EntryValue(shape, e))
    decreases e, 2
  {
    ValueReads(e.value, t);
    if shape.ObjectShape? {
      var value := DocTo(e.value, t);
      DocStarts(e.value, t);
      StringReads(e.key, e.pre + ([':'] + (e.post + value)));
      SpacedReads(':', e.pre, e.post, value);
    }
  }
}
