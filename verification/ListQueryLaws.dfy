/** Two laws of the list query language: printing and parsing are inverse, and query
    strings compose. */
module ListQueryLaws {
  import opened Rows
  import opened Json
  import opened JsonGrammar
  import opened JsonWriter
  import opened ListQuery
  import opened ListQueryGrammar

  // ------------------------------------------------------ printing and parsing

  function DecimalText(n: nat): (t: string)
    ensures t != "" && AllDigits(t) && DecimalValue(t) == n
  {
    var last := ['0' + (n % 10) as char];
    if n < 10 then
      assert last[..0] == "";
      last
    else
      var t := DecimalText(n / 10);
      assert (t + last)[..|t|] == t;
      t + last
  }

  function SymbolOf(op: FilterOp): Symbol {
    match op
    case Eq(_) => SymEq
    case Neq(_) => SymNeq
    case Gt(_) => SymGt
    case Ge(_) => SymGe
    case Lt(_) => SymLt
    case Le(_) => SymLe
    case In(_) => SymIn
    case NotIn(_) => SymNotIn
  }

  function OperandOf(op: FilterOp): Json {
    if op.In? || op.NotIn? then Array(op.items) else op.v
  }

  /** Columns print as alphabetic names that `columnOf` reads back. */
  ghost predicate Names(nameOf: Column -> string, columnOf: ColumnOf) {
    forall c :: AllAlpha(nameOf(c)) && columnOf(nameOf(c)) == Some(c)
  }

  ghost predicate WritableItem(item: Item) {
    match item
    case FilterItem(f) => Writable(OperandOf(f.op))
    case SortItem(_) => true
    case PageItem(n) => n < U32_LIMIT
    case SizeItem(n) => n < U32_LIMIT
  }

  ghost function WriteOption(item: Item, nameOf: Column -> string): OptionDoc {
    match item
    case FilterItem(f) => FilterDoc(nameOf(f.column), SymbolOf(f.op), WriteDoc(OperandOf(f.op)))
    case SortItem(s) => SortDoc(nameOf(s.column), s.order)
    case PageItem(n) => PageDoc(DecimalText(n))
    case SizeItem(n) => SizeDoc(DecimalText(n))
  }

  ghost function WriteOptions(items: seq<Item>, nameOf: Column -> string): (os: seq<OptionDoc>)
    ensures |os| == |items|
  {
    if items == [] then [] else [WriteOption(items[0], nameOf)] + WriteOptions(items[1..], nameOf)
  }

  lemma WrittenOptionMeans(item: Item, nameOf: Column -> string, columnOf: ColumnOf)
    requires WritableItem(item) && Names(nameOf, columnOf)
    ensures GoodOption(WriteOption(item, nameOf), columnOf)
    ensures ItemOf(WriteOption(item, nameOf), columnOf) == item
  {
    if item.FilterItem? {
      WrittenFilterMeans(item.filter, nameOf, columnOf);
    }
  }

  lemma WrittenFilterMeans(f: Filter, nameOf: Column -> string, columnOf: ColumnOf)
    requires Writable(OperandOf(f.op)) && Names(nameOf, columnOf)
    ensures GoodOption(WriteOption(FilterItem(f), nameOf), columnOf)
    ensures ItemOf(WriteOption(FilterItem(f), nameOf), columnOf) == FilterItem(f)
  {
    WrittenDocMeans(OperandOf(f.op));
    assert MakeOp(SymbolOf(f.op), OperandOf(f.op)) == Some(f.op);
  }

  lemma {:induction false} WrittenOptionsMean(items: seq<Item>, nameOf: Column -> string, columnOf: ColumnOf)
    requires (forall item :: item in items ==> WritableItem(item)) && Names(nameOf, columnOf)
    ensures GoodOptions(WriteOptions(items, nameOf), columnOf)
    ensures ItemsOf(WriteOptions(items, nameOf), columnOf) == items
  {
    if items != [] {
      WrittenOptionMeans(items[0], nameOf, columnOf);
      WrittenOptionsMean(items[1..], nameOf, columnOf);
      assert WriteOptions(items, nameOf)[1..] == WriteOptions(items[1..], nameOf);
    }
  }

  /** Any list of filters, sorts and pagination options, printed with `&` between them
      and parsed: filters and sorts come back in order, with the last page and size. */
  lemma PrintedQueryMeans(items: seq<Item>, nameOf: Column -> string, columnOf: ColumnOf)
    requires (forall item :: item in items ==> WritableItem(item)) && Names(nameOf, columnOf)
    ensures Meaning(QueryTo(WriteOptions(items, nameOf), ""), columnOf) ==
      Some(Params(FiltersOf(items), SortsOf(items), LastPage(items, 0), LastSize(items, 100)))
  {
    WrittenOptionsMean(items, nameOf, columnOf);
    QueryRoundTrip(WriteOptions(items, nameOf), columnOf);
  }

  // ---------------------------------------------- what a text ends with

  lemma {:induction false} PiecesToAppend(ps: seq<Piece>, t: string, x: string)
    ensures PiecesTo(ps, t) + x == PiecesTo(ps, t + x)
  {
    if ps != [] {
      PiecesToAppend(ps[1..], t, x);
      PieceToAppend(ps[0], PiecesTo(ps[1..], t), x);
    }
  }

  lemma PieceToAppend(p: Piece, t: string, x: string)
    ensures PieceTo(p, t) + x == PieceTo(p, t + x)
  {
    match p {
      case Plain(c) => assert ([c] + t) + x == [c] + (t + x);
      case Short(letter) => assert (['\\', letter] + t) + x == ['\\', letter] + (t + x);
      case Unit(hex) => assert ("\\u" + hex + t) + x == "\\u" + hex + (t + x);
      case Surrogates(hi, lo) => assert ("\\u" + hi + ("\\u" + lo + t)) + x == "\\u" + hi + ("\\u" + lo + (t + x));
    }
  }

  lemma {:induction false} DocToAppend(d: Doc, t: string, x: string)
    ensures DocTo(d, t) + x == DocTo(d, t + x)
    decreases d, 0
  {
    match d {
      case DNull => assert ("null" + t) + x == "null" + (t + x);
      case DBool(b) => Assoc(if b then "true" else "false", t, x);
      case DNumber(text) => Assoc(text, t, x);
      case DString(ps) =>
        Assoc(['"'], t, x);
        PiecesToAppend(ps, ['"'] + t, x);
        Assoc(['"'], PiecesTo(ps, ['"'] + t), x);
      case DList(shape, lead, es, trail) =>
        var close := [shape.Close()];
        Assoc(close, t, x);
        Assoc(trail, close + t, x);
        EntriesToAppend(shape, es, trail + (close + t), x);
        Assoc(lead, EntriesTo(shape, es, trail + (close + t)), x);
        Assoc([shape.Open()], lead + EntriesTo(shape, es, trail + (close + t)), x);
    }
  }

  lemma Assoc(a: string, b: string, c: string)
    ensures (a + b) + c == a + (b + c)
  {
  }

  lemma {:induction false} EntriesToAppend(shape: Shape, es: seq<Entry>, t: string, x: string)
    ensures EntriesTo(shape, es, t) + x == EntriesTo(shape, es, t + x)
    decreases es, 1
  {
    if es != [] {
      MoreToAppend(shape, es, t, x);
      EntryToAppend(shape, es[0], MoreTo(shape, es, t), x);
    }
  }

  lemma {:induction false} MoreToAppend(shape: Shape, es: seq<Entry>, t: string, x: string)
    requires es != []
    ensures MoreTo(shape, es, t) + x == MoreTo(shape, es, t + x)
    decreases es, 0
  {
    if |es| > 1 {
      var rest := EntriesTo(shape, es[1..], t);
      EntriesToAppend(shape, es[1..], t, x);
      Assoc(es[0].next, rest, x);
      Assoc([','], es[0].next + rest, x);
      Assoc(es[0].after, [','] + (es[0].next + rest), x);
    }
  }

  lemma {:induction false} EntryToAppend(shape: Shape, e: Entry, t: string, x: string)
    ensures EntryTo(shape, e, t) + x == EntryTo(shape, e, t + x)
    decreases e, 2
  {
    DocToAppend(e.value, t, x);
    if shape.ObjectShape? {
      var v := DocTo(e.value, t);
      Assoc(e.post, v, x);
      Assoc([':'], e.post + v, x);
      Assoc(e.pre, [':'] + (e.post + v), x);
      var after := e.pre + ([':'] + (e.post + v));
      Assoc(['"'], after, x);
      PiecesToAppend(e.key, ['"'] + after, x);
      Assoc(['"'], PiecesTo(e.key, ['"'] + after), x);
    }
  }

  lemma OptionToAppend(o: OptionDoc, t: string, x: string)
    ensures OptionTo(o, t) + x == OptionTo(o, t + x)
  {
    match o {
      case FilterDoc(name, sym, rhs) =>
        DocToAppend(rhs, t, x);
        FilterHeadAppend(name, SymbolText(sym), DocTo(rhs, t), x);
      case SortDoc(name, order) =>
        SortHeadAppend(name, OrderText(order), t, x);
      case PageDoc(digits) => PageHeadAppend("[page]=", digits, t, x);
      case SizeDoc(digits) => PageHeadAppend("[size]=", digits, t, x);
    }
  }

  lemma FilterHeadAppend(name: string, sym: string, t: string, x: string)
    ensures ("filter" + ("[" + (name + ("]" + ("[" + (sym + ("]=" + t))))))) + x ==
      "filter" + ("[" + (name + ("]" + ("[" + (sym + ("]=" + (t + x)))))))
  {
  }

  lemma SortHeadAppend(name: string, order: string, t: string, x: string)
    ensures ("sort" + ("[" + (name + ("]" + ("=" + (order + t)))))) + x ==
      "sort" + ("[" + (name + ("]" + ("=" + (order + (t + x))))))
  {
  }

  lemma PageHeadAppend(word: string, digits: string, t: string, x: string)
    ensures ("pagination" + (word + (digits + t))) + x == "pagination" + (word + (digits + (t + x)))
  {
  }

  lemma {:induction false} QueryToAppend(os: seq<OptionDoc>, end: string, x: string)
    requires os != []
    ensures QueryTo(os, end) + x == QueryTo(os, end + x)
  {
    if |os| == 1 {
      OptionToAppend(os[0], end, x);
    } else {
      QueryToAppend(os[1..], end, x);
      Assoc("&", QueryTo(os[1..], end), x);
      OptionToAppend(os[0], "&" + QueryTo(os[1..], end), x);
    }
  }

  predicate EndsInAmpersand(s: string) {
    s != "" && s[|s| - 1] == '&'
  }

  lemma LastOfSum(a: string, b: string)
    requires b != ""
    ensures EndsInAmpersand(a + b) == EndsInAmpersand(b)
  {
  }

  lemma DocEnd(d: Doc)
    requires GoodDoc(d)
    ensures DocTo(d, "") != "" && !EndsInAmpersand(DocTo(d, ""))
  {
    match d {
      case DString(ps) =>
        assert ['"'] + "" == ['"'] && "" + ['"'] == ['"'];
        PiecesToAppend(ps, "", ['"']);
        LastOfSum(['"'] + PiecesTo(ps, ""), ['"']);
        Assoc(['"'], PiecesTo(ps, ""), ['"']);
      case DList(shape, lead, es, trail) =>
        var close := [shape.Close()];
        assert close + "" == close;
        EntriesToAppend(shape, es, trail, close);
        assert DocTo(d, "") == ([shape.Open()] + (lead + EntriesTo(shape, es, trail))) + close;
        LastOfSum([shape.Open()] + (lead + EntriesTo(shape, es, trail)), close);
      case _ =>
    }
  }

  lemma OptionEnd(o: OptionDoc, columnOf: ColumnOf)
    requires GoodOption(o, columnOf)
    ensures !EndsInAmpersand(OptionTo(o, ""))
  {
    match o {
      case FilterDoc(name, sym, rhs) =>
        DocEnd(rhs);
        FilterEnd(name, SymbolText(sym), DocTo(rhs, ""));
      case _ =>
    }
  }

  lemma FilterEnd(name: string, sym: string, t: string)
    requires t != ""
    ensures EndsInAmpersand("filter" + ("[" + (name + ("]" + ("[" + (sym + ("]=" + t))))))) == EndsInAmpersand(t)
  {
    LastOfSum("filter[" + name + "][" + sym + "]=", t);
    assert "filter" + ("[" + (name + ("]" + ("[" + (sym + ("]=" + t)))))) == "filter[" + name + "][" + sym + "]=" + t;
  }

  lemma OptionThenEnd(o: OptionDoc, rest: string)
    requires rest != ""
    ensures EndsInAmpersand(OptionTo(o, "&" + rest)) == EndsInAmpersand(rest)
  {
    OptionToAppend(o, "", "&" + rest);
    assert "" + ("&" + rest) == "&" + rest;
    LastOfSum("&", rest);
    LastOfSum(OptionTo(o, ""), "&" + rest);
  }

  lemma {:induction false} QueryAloneEnd(os: seq<OptionDoc>, columnOf: ColumnOf)
    requires os != [] && GoodOptions(os, columnOf)
    ensures QueryTo(os, "") != "" && !EndsInAmpersand(QueryTo(os, ""))
  {
    QueryNonEmpty(os, "");
    if |os| == 1 {
      OptionEnd(os[0], columnOf);
    } else {
      QueryAloneEnd(os[1..], columnOf);
      OptionThenEnd(os[0], QueryTo(os[1..], ""));
    }
  }

  lemma QueryNonEmpty(os: seq<OptionDoc>, end: string)
    requires os != []
    ensures QueryTo(os, end) != ""
  {
  }

  lemma QueryEnd(os: seq<OptionDoc>, columnOf: ColumnOf, end: string)
    requires os != [] && GoodOptions(os, columnOf) && (end == "" || end == "&")
    ensures EndsInAmpersand(QueryTo(os, end)) <==> end == "&"
  {
    if end == "" {
      QueryAloneEnd(os, columnOf);
    } else {
      QueryToAppend(os, "", "&");
      assert "" + "&" == "&";
      LastOfSum(QueryTo(os, ""), "&");
    }
  }

  // -------------------------------------------------------------- composition

  /** An accepted query string can be continued with `&` exactly when it is not empty
      and does not end in `&`: then the rest is read on its own, whatever it is;
      otherwise nothing that follows makes the whole acceptable. */
  lemma ItemsCompose(s1: string, s2: string, columnOf: ColumnOf)
    requires ParseItems(s1, columnOf).Some?
    ensures ParseItems(s1 + "&" + s2, columnOf) ==
      if s1 == "" || EndsInAmpersand(s1) then None
      else Before(ParseItems(s1, columnOf).value, ParseItems(s2, columnOf))
  {
    var os, end := ItemsSound(s1, columnOf);
    NoOptionAt(s2, columnOf);
    Assoc(s1, "&", s2);
    if os == [] {
      assert s1 + "&" + s2 == "&" + s2;
    } else {
      OptionsRead(os, columnOf, end);
      QueryEnd(os, columnOf, end);
      QueryToAppend(os, end, "&" + s2);
      if end == "&" {
        OptionsThen(os, columnOf, "&" + s2);
      } else {
        assert end + ("&" + s2) == "&" + s2;
        assert s1 != "" by { QueryNonEmpty(os, ""); }
        OptionsThen(os, columnOf, s2);
      }
    }
  }

  lemma NoOptionAt(s: string, columnOf: ColumnOf)
    ensures ParseItems("&" + s, columnOf) == None
  {
    assert ("&" + s)[0] == '&';
    assert !("filter" <= "&" + s) && !("sort" <= "&" + s) && !("pagination" <= "&" + s);
  }

  lemma {:induction false} AddAllConcat(p: Params, a: seq<Item>, b: seq<Item>)
    ensures AddAll(p, a + b) == AddAll(AddAll(p, a), b)
    decreases |a|
  {
    if a == [] {
      assert a + b == b;
    } else {
      assert (a + b)[1..] == a[1..] + b;
      AddAllConcat(Add(p, a[0]), a[1..], b);
    }
  }

  /** The composition law: with `s1` accepted, `s1 & s2` is accepted exactly when `s1` is
      neither empty nor ends in `&` and `s2` is accepted; the filters and sorts of `s2`
      then follow those of `s1`, and where `s2` sets page or size it wins. */
  lemma QueriesCompose(s1: string, s2: string, columnOf: ColumnOf)
    requires Meaning(s1, columnOf).Some?
    ensures Meaning(s1 + "&" + s2, columnOf).Some? <==>
      s1 != "" && !EndsInAmpersand(s1) && Meaning(s2, columnOf).Some?
    ensures Meaning(s1 + "&" + s2, columnOf).Some? ==>
      var p1, p2 := Meaning(s1, columnOf).value, Meaning(s2, columnOf).value;
      var later := ParseItems(s2, columnOf).value;
      Meaning(s1 + "&" + s2, columnOf).value ==
        Params(p1.filters + p2.filters, p1.sorts + p2.sorts, LastPage(later, p1.page), LastSize(later, p1.size))
  {
    ItemsCompose(s1, s2, columnOf);
    if s1 != "" && !EndsInAmpersand(s1) && ParseItems(s2, columnOf).Some? {
      var first, later := ParseItems(s1, columnOf).value, ParseItems(s2, columnOf).value;
      AddAllConcat(DEFAULT, first, later);
      AddAllMeans(AddAll(DEFAULT, first), later);
      DefaultsMean(later);
    }
  }
}
